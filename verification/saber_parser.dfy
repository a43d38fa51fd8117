/**
  `SaberParser`: brings every chart file of a Beat Saber map into the v2
  schema, orders the charts by note count (keeping at most ten), names them
  after the ITG difficulty ladder and builds one StepMania chart per map
  with a `StepBuilder` that has no placement settings.
 */
module SaberParser {
  import opened Wrappers
  import opened MapTypes
  import opened StepTypes
  import opened StepBuilderTypes
  import opened StepBuilderSpec
  import opened NoteGrouping
  import opened TickCells
  import opened Placement
  import opened Fractions
  import opened Strings
  import SB = StepBuilder

  /** `ITG_LEVEL_MAP`, hardest first. */
  const ItgLevelMap: seq<string> := ["Challenge", "Hard", "Medium", "Easy", "Beginner"]

  /** `ITG_LEVEL_MAP.length * 2`: the most charts a song keeps. */
  const MaxCharts: nat := 10

  const NoData: string := "No data"

  /** The TypeError of `_beatsPerMinute.toString()` on a missing tempo. */
  const NoTempo: string := "Cannot read properties of undefined (reading 'toString')"

  /** The info file gives a tempo. */
  predicate HasTempo(info: MapInfoDataV2)
  {
    info.beatsPerMinute.Some?
  }

  // ---------------------------------------------------------------------
  // isV3Map

  predicate IsDigit(c: char)
  {
    '0' <= c <= '9'
  }

  /** The number of decimal digits `s` starts with. */
  function DigitRun(s: string): (n: nat)
    ensures n <= |s|
    ensures forall i :: 0 <= i < n ==> IsDigit(s[i])
    ensures n < |s| ==> !IsDigit(s[n])
  {
    if |s| == 0 || !IsDigit(s[0]) then 0 else 1 + DigitRun(s[1..])
  }

  /** The value of a string of decimal digits. */
  function DigitsValue(ds: string): nat
    requires forall i :: 0 <= i < |ds| ==> IsDigit(ds[i])
  {
    if |ds| == 0 then 0
    else
      var last := ds[|ds| - 1];
      assert IsDigit(last);
      DigitsValue(ds[..|ds| - 1]) * 10 + (last as int - '0' as int)
  }

  /** A run of digits is worth at least its leading digit. */
  lemma {:induction false} LeadingDigitBound(ds: string)
    requires |ds| > 0 && forall i :: 0 <= i < |ds| ==> IsDigit(ds[i])
    ensures DigitsValue(ds) >= ds[0] as int - '0' as int
  {
    if |ds| > 1 {
      var init := ds[..|ds| - 1];
      LeadingDigitBound(init);
      assert init[0] == ds[0];
    }
  }

  /** `parseFloat(version || '0') >= 3`, read through the run of decimal
      digits the version starts with: a fraction after that run cannot lift
      a whole part below 3 to 3. A version that starts with a digit from 3
      to 9 is v3; a missing one is read as "0" and is not. */
  function IsV3Map(version: Option<string>): (r: bool)
    ensures version.None? ==> !r
    ensures version.Some? && |version.value| > 0 && '3' <= version.value[0] <= '9' ==> r
  {
    var s := OrElse(version, "0");
    var n := DigitRun(s);
    if n > 0 then
      LeadingDigitBound(s[..n]);
      DigitsValue(s[..n]) >= 3
    else
      false
  }

  lemma DigitCharValue(d: nat)
    requires d < 10
    ensures IsDigit(DigitChar(d)) && DigitChar(d) as int - '0' as int == d
  {
    var digits := "0123456789";
    assert digits[0] == '0' && digits[1] == '1' && digits[2] == '2' && digits[3] == '3' && digits[4] == '4';
    assert digits[5] == '5' && digits[6] == '6' && digits[7] == '7' && digits[8] == '8' && digits[9] == '9';
  }

  /** Reading back a number written in decimal gives the number. */
  lemma {:induction false} DigitsOfNat(m: nat)
    ensures forall i :: 0 <= i < |NatToString(m)| ==> IsDigit(NatToString(m)[i])
    ensures DigitsValue(NatToString(m)) == m
  {
    var s := NatToString(m);
    if m < 10 {
      DigitCharValue(m);
      assert s[..0] == "";
    } else {
      DigitsOfNat(m / 10);
      DigitCharValue(m % 10);
      assert s[..|s| - 1] == NatToString(m / 10);
    }
  }

  /** The digit run stops at the first character that is not a digit. */
  lemma {:induction false} DigitRunStops(ds: string, tail: string)
    requires forall i :: 0 <= i < |ds| ==> IsDigit(ds[i])
    requires |tail| == 0 || !IsDigit(tail[0])
    ensures DigitRun(ds + tail) == |ds|
  {
    if |ds| > 0 {
      assert (ds + tail)[1..] == ds[1..] + tail;
      DigitRunStops(ds[1..], tail);
    } else {
      assert ds + tail == tail;
    }
  }

  /** A version `m`, `m.x` or `m.x.y` marks a v3 map exactly when its major
      number `m` is at least 3; a map with no `version` field (every v2
      file, whose field is `_version`) or an empty one is not v3. */
  lemma V3Versions(major: nat, tail: string)
    requires |tail| == 0 || tail[0] == '.'
    ensures IsV3Map(Some(NatToString(major) + tail)) <==> major >= 3
    ensures !IsV3Map(None) && !IsV3Map(Some(""))
  {
    var ds := NatToString(major);
    DigitsOfNat(major);
    DigitRunStops(ds, tail);
    assert (ds + tail)[..|ds|] == ds;
    assert OrElse(Some(ds + tail), "0") == ds + tail;
    var zero := OrElse(None, "0");
    assert zero == "0" && DigitRun(zero) == 1 && zero[..1] == "0";
  }

  // ---------------------------------------------------------------------
  // parseMapDataV3

  /** One v3 colour note under its v2 field names. */
  function NoteOfColorNote(n: ColorNote): (r: NoteV2)
    ensures r.cutDirection == n.c && r.lineIndex == n.x && r.lineLayer == n.y
    ensures r.noteType == n.a && r.time == n.b
  {
    NoteV2(n.c, n.x, n.y, n.a, n.b)
  }

  /** `parseMapDataV3`: the colour notes, in order, as v2 notes; no
      obstacles; version "2". */
  function ParseMapDataV3(notes: seq<ColorNote>): (r: MapDataV2)
    ensures |r.notes| == |notes| && r.obstacles == [] && r.version == "2"
    ensures forall i :: 0 <= i < |notes| ==> r.notes[i] == NoteOfColorNote(notes[i])
  {
    MapDataV2(seq(|notes|, i requires 0 <= i < |notes| => NoteOfColorNote(notes[i])), [], "2")
  }

  /** Two colour notes that agree on every field but `d`. */
  predicate SameButExtra(x: ColorNote, y: ColorNote)
  {
    x.b == y.b && x.x == y.x && x.y == y.y && x.a == y.a && x.c == y.c
  }

  /** The conversion loses exactly the `d` field: two lists of colour notes
      convert to the same v2 data if and only if they agree note by note on
      everything else. */
  lemma ParseMapDataV3KeepsAllButExtra(xs: seq<ColorNote>, ys: seq<ColorNote>)
    ensures ParseMapDataV3(xs) == ParseMapDataV3(ys) <==>
            |xs| == |ys| && forall i :: 0 <= i < |xs| ==> SameButExtra(xs[i], ys[i])
  {
    var rx, ry := ParseMapDataV3(xs), ParseMapDataV3(ys);
    if rx == ry {
      forall i | 0 <= i < |xs| ensures SameButExtra(xs[i], ys[i]) {
        assert rx.notes[i] == ry.notes[i];
      }
    }
    if |xs| == |ys| && forall i :: 0 <= i < |xs| ==> SameButExtra(xs[i], ys[i]) {
      assert rx.notes == ry.notes;
    }
  }

  /** The map `toStepFile` works on: v3 files converted, v2 files as read. */
  function Normalise(raw: RawMapData): (m: MapDataV2)
    ensures IsV3Map(raw.version) ==> m == ParseMapDataV3(raw.colorNotes)
    ensures !IsV3Map(raw.version) ==> m == raw.v2
  {
    if IsV3Map(raw.version) then ParseMapDataV3(raw.colorNotes) else raw.v2
  }

  /** v2 data read back as a file: it has `_version`, not `version`. */
  function AsRaw(m: MapDataV2): RawMapData
  {
    RawMapData(None, [], m)
  }

  /** Normalising is idempotent: a normalised map is not taken for v3. */
  lemma NormaliseIdempotent(raw: RawMapData)
    ensures Normalise(AsRaw(Normalise(raw))) == Normalise(raw)
  {
    V3Versions(0, "");
  }

  function NormaliseAll(charts: seq<RawMapData>): (r: seq<MapDataV2>)
    ensures |r| == |charts| && forall i :: 0 <= i < |charts| ==> r[i] == Normalise(charts[i])
  {
    seq(|charts|, i requires 0 <= i < |charts| => Normalise(charts[i]))
  }

  // ---------------------------------------------------------------------
  // sortChartData

  /** Non-increasing note counts. */
  predicate ByNoteCount(s: seq<MapDataV2>)
  {
    forall i, j :: 0 <= i < j < |s| ==> |s[i].notes| >= |s[j].notes|
  }

  /** Inserts `m` after every map with at least as many notes. */
  function InsertByCount(m: MapDataV2, s: seq<MapDataV2>): (r: seq<MapDataV2>)
    ensures |r| == |s| + 1
    ensures multiset(r) == multiset(s) + multiset{m}
  {
    if |s| == 0 then [m]
    else if |s[0].notes| >= |m.notes| then
      assert s == [s[0]] + s[1..];
      [s[0]] + InsertByCount(m, s[1..])
    else
      [m] + s
  }

  /** A bound on the note counts of `s` and of `m` bounds the result. */
  lemma {:induction false} InsertBounded(m: MapDataV2, s: seq<MapDataV2>, bound: nat)
    requires |m.notes| <= bound && forall i :: 0 <= i < |s| ==> |s[i].notes| <= bound
    ensures forall i :: 0 <= i < |s| + 1 ==> |InsertByCount(m, s)[i].notes| <= bound
  {
    if |s| > 0 && |s[0].notes| >= |m.notes| {
      InsertBounded(m, s[1..], bound);
    }
  }

  /** Inserting into maps in order keeps them in order. */
  lemma {:induction false} InsertSorted(m: MapDataV2, s: seq<MapDataV2>)
    requires ByNoteCount(s)
    ensures ByNoteCount(InsertByCount(m, s))
  {
    if |s| > 0 && |s[0].notes| >= |m.notes| {
      InsertSorted(m, s[1..]);
      InsertBounded(m, s[1..], |s[0].notes|);
    }
  }

  /** The order of `chartData.sort((a, b) => b._notes.length -
      a._notes.length)`: by non-increasing note count, maps with equal
      counts in their original order (the sort is stable). */
  function SortByNotes(xs: seq<MapDataV2>): (r: seq<MapDataV2>)
    ensures ByNoteCount(r)
    ensures multiset(r) == multiset(xs) && |r| == |xs|
  {
    if |xs| == 0 then []
    else
      var init := xs[..|xs| - 1];
      assert xs == init + [xs[|xs| - 1]];
      var sortedInit := SortByNotes(init);
      InsertSorted(xs[|xs| - 1], sortedInit);
      InsertByCount(xs[|xs| - 1], sortedInit)
  }

  /** A map with no more notes than any map of `s` goes at the end. */
  lemma {:induction false} InsertLast(m: MapDataV2, s: seq<MapDataV2>)
    requires ByNoteCount(s)
    requires forall i :: 0 <= i < |s| ==> |s[i].notes| >= |m.notes|
    ensures InsertByCount(m, s) == s + [m]
  {
    if |s| > 0 {
      InsertLast(m, s[1..]);
      assert s == [s[0]] + s[1..];
    }
  }

  /** Maps already in order are left as they are; so sorting twice is
      sorting once. */
  lemma {:induction false} SortedUnchanged(xs: seq<MapDataV2>)
    requires ByNoteCount(xs)
    ensures SortByNotes(xs) == xs
  {
    if |xs| > 0 {
      var init := xs[..|xs| - 1];
      SortedUnchanged(init);
      InsertLast(xs[|xs| - 1], init);
      assert init + [xs[|xs| - 1]] == xs;
    }
  }

  function KeptCount(n: nat): (k: nat)
    ensures k <= n && k <= MaxCharts
    ensures k == n || k == MaxCharts
  {
    if n < MaxCharts then n else MaxCharts
  }

  /** `sortChartData`: the sorted maps, cut to the first ten. */
  function SortedCharts(ms: seq<MapDataV2>): (r: seq<MapDataV2>)
  {
    SortByNotes(ms)[..KeptCount(|ms|)]
  }

  /** A map of the input that the cut leaves out sits behind every map
      kept in the sorted order. */
  lemma DroppedIsSmaller(ms: seq<MapDataV2>, x: MapDataV2, i: nat)
    requires x in ms && x !in SortedCharts(ms) && i < |SortedCharts(ms)|
    ensures |SortedCharts(ms)[i].notes| >= |x.notes|
  {
    var sorted := SortByNotes(ms);
    var r := SortedCharts(ms);
    assert multiset(sorted)[x] == multiset(ms)[x] > 0;
    assert x in sorted;
    var k :| 0 <= k < |sorted| && sorted[k] == x;
    assert sorted[i] == r[i];
  }

  /** The charts kept are the (at most ten) with the most notes, in order:
      every map left out has no more notes than any map kept. */
  lemma SortedChartsKeepLargest(ms: seq<MapDataV2>)
    ensures var r := SortedCharts(ms);
      |r| == KeptCount(|ms|) && ByNoteCount(r) && multiset(r) <= multiset(ms) &&
      forall x, i :: x in ms && x !in r && 0 <= i < |r| ==> |r[i].notes| >= |x.notes|
  {
    var sorted := SortByNotes(ms);
    var r := SortedCharts(ms);
    assert sorted == r + sorted[|r|..];
    assert multiset(sorted) == multiset(r) + multiset(sorted[|r|..]);
    forall x, i | x in ms && x !in r && 0 <= i < |r| ensures |r[i].notes| >= |x.notes| {
      DroppedIsSmaller(ms, x, i);
    }
  }

  /** `sortChartData` on the array `parsedData`: sorts it in place and
      returns its first ten maps. */
  method SortChartData(chartData: array<MapDataV2>) returns (kept: seq<MapDataV2>)
    modifies chartData
    ensures chartData[..] == SortByNotes(old(chartData[..]))
    ensures kept == SortedCharts(old(chartData[..]))
  {
    var sorted := SortByNotes(chartData[..]);
    forall i | 0 <= i < chartData.Length {
      chartData[i] := sorted[i];
    }
    kept := chartData[..KeptCount(chartData.Length)];
  }

  // ---------------------------------------------------------------------
  // getChartDifficultyNames

  /** The first `k` levels, each preceded by its `_Edit` variant. */
  function EditPairs(k: nat): (r: seq<string>)
    requires k <= |ItgLevelMap|
    ensures |r| == 2 * k
  {
    if k == 0 then [] else EditPairs(k - 1) + [ItgLevelMap[k - 1] + "_Edit", ItgLevelMap[k - 1]]
  }

  /** How many `_Edit` names `n` charts get. */
  function EditCount(n: nat): (k: nat)
    requires n <= MaxCharts
    ensures k <= |ItgLevelMap|
  {
    if n > |ItgLevelMap| then n - |ItgLevelMap| else 0
  }

  /** The names `getChartDifficultyNames` gives `n` charts. */
  function DifficultyNames(n: nat): (names: seq<string>)
    requires n <= MaxCharts
  {
    EditPairs(EditCount(n)) + ItgLevelMap[EditCount(n)..]
  }

  /** One splice of the loop: the `_Edit` name of level `index` inserted
      at `2 * index` turns `index` pairs into `index + 1`. */
  lemma SpliceStep(index: nat)
    requires index < |ItgLevelMap|
    ensures var res := EditPairs(index) + ItgLevelMap[index..];
      res[..index * 2] + [ItgLevelMap[index] + "_Edit"] + res[index * 2..] ==
      EditPairs(index + 1) + ItgLevelMap[index + 1..]
  {
    var pairs := EditPairs(index);
    var res := pairs + ItgLevelMap[index..];
    assert res[..index * 2] == pairs;
    assert res[index * 2..] == ItgLevelMap[index..];
    assert ItgLevelMap[index..] == [ItgLevelMap[index]] + ItgLevelMap[index + 1..];
  }

  /** `getChartDifficultyNames`, for the (at most ten) sorted charts: the
      level list, with `${level}_Edit` spliced in at `2 * index` for each
      chart beyond five. */
  method GetChartDifficultyNames(length: nat) returns (res: seq<string>)
    requires length <= MaxCharts
    ensures res == DifficultyNames(length)
  {
    res := ItgLevelMap;
    var remains: int := length - |ItgLevelMap|;
    assert remains <= 0 ==> EditCount(length) == 0;
    assert remains > 0 ==> EditCount(length) == remains;
    var index := 0;
    while index < remains
      invariant 0 <= index <= EditCount(length)
      invariant res == EditPairs(index) + ItgLevelMap[index..]
    {
      SpliceStep(index);
      res := res[..index * 2] + [ItgLevelMap[index] + "_Edit"] + res[index * 2..];
      index := index + 1;
    }
    assert index == EditCount(length);
  }

  lemma {:induction false} EditPairsAt(k: nat, i: nat)
    requires k <= |ItgLevelMap| && i < k
    ensures EditPairs(k)[2 * i] == ItgLevelMap[i] + "_Edit"
    ensures EditPairs(k)[2 * i + 1] == ItgLevelMap[i]
  {
    if i < k - 1 {
      EditPairsAt(k - 1, i);
    }
  }

  /** `n` charts get `max(5, n)` names: for each of the first `n - 5`
      levels its `_Edit` name comes right before it, and the remaining
      levels follow in ladder order. */
  lemma DifficultyNamesShape(n: nat)
    requires n <= MaxCharts
    ensures var names := DifficultyNames(n);
      var k := EditCount(n);
      |names| == (if n > 5 then n else 5) &&
      (forall i :: 0 <= i < k ==> names[2 * i] == ItgLevelMap[i] + "_Edit" && names[2 * i + 1] == ItgLevelMap[i]) &&
      (forall j :: k <= j < 5 ==> names[k + j] == ItgLevelMap[j])
  {
    var k := EditCount(n);
    forall i | 0 <= i < k
      ensures DifficultyNames(n)[2 * i] == ItgLevelMap[i] + "_Edit"
      ensures DifficultyNames(n)[2 * i + 1] == ItgLevelMap[i]
    {
      EditPairsAt(k, i);
    }
  }

  /** `i` is twice `j`, plus one when `odd`. */
  lemma {:induction false} Halve(i: nat) returns (j: nat, odd: bool)
    ensures i == 2 * j + (if odd then 1 else 0)
    decreases i
  {
    if i < 2 {
      j, odd := 0, i == 1;
    } else {
      j, odd := Halve(i - 2);
      j := j + 1;
    }
  }

  /** Each name is a level or the `_Edit` name of a level. */
  lemma NameLevel(n: nat, i: nat) returns (j: nat, edit: bool)
    requires n <= MaxCharts && i < |DifficultyNames(n)|
    ensures j < |ItgLevelMap|
    ensures DifficultyNames(n)[i] == if edit then ItgLevelMap[j] + "_Edit" else ItgLevelMap[j]
  {
    var names := DifficultyNames(n);
    var k := EditCount(n);
    DifficultyNamesShape(n);
    if i < 2 * k {
      var odd;
      j, odd := Halve(i);
      edit := !odd;
      if edit {
        assert names[2 * j] == ItgLevelMap[j] + "_Edit";
      } else {
        assert names[2 * j + 1] == ItgLevelMap[j];
      }
    } else {
      j, edit := i - k, false;
      assert names[k + j] == ItgLevelMap[j];
    }
  }

  // ---------------------------------------------------------------------
  // getStepChartConfig, buildSteps and toStepFile

  /** The song fields `getStepChartConfig` returns. */
  datatype SongConfig = SongConfig(
    title: string,
    subtitle: string,
    artist: string,
    credit: string,
    sampleStart: string,
    sampleLength: string,
    offset: string,
    bpms: string)

  /** `(x || '').toString()` for a number: 0 is falsy and gives "". */
  function NumberOrEmpty(x: real, numToString: real -> string): string
  {
    if x == 0.0 then "" else numToString(x)
  }

  /** `getStepChartConfig` once the data is loaded; `numToString` stands
      for `Number.prototype.toString`. The tempo is read without a guard, so
      a missing tempo throws. The offset is "0" when the song time offset is
      0 (falsy), a missing preview start or length is "". */
  function SongConfigOf(info: MapInfoDataV2, numToString: real -> string): (r: Result<SongConfig>)
    ensures r.Failure? <==> !HasTempo(info)
    ensures !HasTempo(info) ==> r == Failure(NoTempo)
    ensures r.Success? ==> r.value.title == info.songName && r.value.subtitle == info.songSubName
    ensures r.Success? ==> r.value.artist == info.songAuthorName && r.value.credit == info.levelAuthorName
    ensures r.Success? ==> r.value.offset == (if info.songTimeOffset == 0.0 then "0" else numToString(info.songTimeOffset))
    ensures r.Success? && info.previewStartTime == 0.0 ==> r.value.sampleStart == ""
    ensures r.Success? && info.previewStartTime != 0.0 ==> r.value.sampleStart == numToString(info.previewStartTime)
    ensures r.Success? && info.previewDuration == 0.0 ==> r.value.sampleLength == ""
    ensures r.Success? && info.previewDuration != 0.0 ==> r.value.sampleLength == numToString(info.previewDuration)
    ensures r.Success? ==> r.value.bpms == numToString(info.beatsPerMinute.value)
  {
    if info.beatsPerMinute.None? then Failure(NoTempo)
    else
      Success(SongConfig(
        info.songName, info.songSubName, info.songAuthorName, info.levelAuthorName,
        NumberOrEmpty(info.previewStartTime, numToString),
        NumberOrEmpty(info.previewDuration, numToString),
        if info.songTimeOffset == 0.0 then "0" else numToString(info.songTimeOffset),
        numToString(info.beatsPerMinute.value)))
  }

  /** `{ ...config, charts }`: the fields the config does not set are absent. */
  function WithCharts(config: SongConfig, charts: seq<Chart>): (r: StepChart)
    ensures r.charts == charts && r.title == config.title && r.bpms == config.bpms
    ensures r.offset == Some(config.offset) && r.outputOffset.None? && r.music.None?
  {
    StepChart(config.title, Some(config.subtitle), Some(config.artist), None, Some(config.credit),
              None, None, None, Some(config.offset), None, config.bpms,
              Some(config.sampleStart), Some(config.sampleLength), charts)
  }

  /** The placement settings `buildSteps` passes: none. */
  const NoRules: StepBuilderConfig := StepBuilderConfig(None, None, None, None, None, None, None, None, None)

  /** With no settings every gap test compares with NaN, so no placement
      rule fires: every tick keeps the lanes it asks for. */
  lemma NoRulesKeepLanes(prev: seq<int>, cur: seq<int>, gap: int, foot: Foot)
    requires ValidLanes(cur) && NoLane !in prev
    ensures Place(NoRules, prev, cur, gap, foot).locations == cur
  {
  }

  /** With no jump mode either, a tick of one hand asks for that hand's
      lanes, while a tick whose notes come from two or more hands, or from
      bombs alone, asks for none and gets no step. */
  lemma NoJumpModeSkipsJumps(st: BuilderState, notes: seq<TimedNote>)
    requires |notes| > 0 && AllWellFormed(notes)
    ensures |HandIndices(notes)| == 1 ==> Wanted(NoRules, notes) == HandIndices(notes)[0]
    ensures |HandIndices(notes)| != 1 ==>
      Wanted(NoRules, notes) == [] && Tap !in BuildNotesSpec(NoRules, st, notes).0
  {
    if |HandIndices(notes)| != 1 {
      var p := Placed(NoRules, st, notes);
      assert p.locations == [];
      var t := TapCells(p.locations);
      var bombs := BombLanes(notes);
      forall j | 0 <= j < 4 ensures LayBombs(t, bombs)[j] != Tap {
        LayBombsCells(t, bombs, j);
      }
    }
  }

  /** The chart-level settings of `buildSteps`: the map's notes, the
      chart name and `Number(bpms)`, which gives the song's bpm back;
      no additional offset and no auto-snap setting. */
  function SettingsFor(info: MapInfoDataV2, data: MapDataV2, name: string): SB.ChartSettings
    requires HasTempo(info)
  {
    SB.ChartSettings(data.notes, name, info.beatsPerMinute, None, None)
  }

  /** The notes a builder accepts (lanes and types 0..3). */
  predicate NotesInRange(m: MapDataV2)
  {
    forall j :: 0 <= j < |m.notes| ==> SB.NoteInRange(m.notes[j])
  }

  /** The chart `buildSteps(data, name)` returns: the chart a fresh
      builder builds, which always succeeds on the default 24 grid. */
  function ChartFor(info: MapInfoDataV2, data: MapDataV2, name: string, itgOffset: real, meterOf: real -> nat): (chart: Chart)
    requires HasTempo(info)
    requires NotesInRange(data)
    ensures chart.chartType == "dance-single" && chart.name == name && chart.hold == 0
    ensures chart.hands <= chart.jump <= chart.tap
    ensures |chart.meter| > 0 && chart.meter != "0"
  {
    var s := SettingsFor(info, data, name);
    SB.ChartNeverFails(NoRules, s, itgOffset, InitialState, 0, meterOf);
    SB.FreshChart(NoRules, s, itgOffset, FractionsSpec(24, true), meterOf);
    SB.ChartOf(NoRules, s, itgOffset, FractionsSpec(24, true), InitialState, 0, meterOf).value.0
  }

  /** `parsedData.map((data, index) => buildSteps(data, names[index]))`. */
  function ChartsFor(info: MapInfoDataV2, maps: seq<MapDataV2>, names: seq<string>, itgOffset: real, meterOf: real -> nat): (r: seq<Chart>)
    requires HasTempo(info)
    requires |names| >= |maps| && forall i :: 0 <= i < |maps| ==> NotesInRange(maps[i])
    ensures |r| == |maps|
  {
    if |maps| == 0 then []
    else
      ChartsFor(info, maps[..|maps| - 1], names, itgOffset, meterOf) +
      [ChartFor(info, maps[|maps| - 1], names[|maps| - 1], itgOffset, meterOf)]
  }

  /** One more map, one more chart. */
  lemma ChartsForSnoc(info: MapInfoDataV2, maps: seq<MapDataV2>, names: seq<string>, itgOffset: real, meterOf: real -> nat, i: nat)
    requires HasTempo(info)
    requires |names| >= |maps| && forall k :: 0 <= k < |maps| ==> NotesInRange(maps[k])
    requires i < |maps|
    ensures ChartsFor(info, maps[..i + 1], names, itgOffset, meterOf) ==
      ChartsFor(info, maps[..i], names, itgOffset, meterOf) + [ChartFor(info, maps[i], names[i], itgOffset, meterOf)]
  {
    assert maps[..i + 1][..i] == maps[..i];
  }

  /** Chart `i` is built from map `i` under name `i`. */
  lemma {:induction false} ChartsForAt(info: MapInfoDataV2, maps: seq<MapDataV2>, names: seq<string>, itgOffset: real, meterOf: real -> nat, i: nat)
    requires HasTempo(info)
    requires |names| >= |maps| && forall k :: 0 <= k < |maps| ==> NotesInRange(maps[k])
    requires i < |maps|
    ensures ChartsFor(info, maps, names, itgOffset, meterOf)[i] == ChartFor(info, maps[i], names[i], itgOffset, meterOf)
  {
    if i < |maps| - 1 {
      ChartsForAt(info, maps[..|maps| - 1], names, itgOffset, meterOf, i);
    }
  }

  /** Every normalised map has notes the builder accepts. */
  predicate ChartsInRange(charts: seq<RawMapData>)
  {
    forall k :: 0 <= k < |charts| ==> NotesInRange(Normalise(charts[k]))
  }

  lemma SortedInRange(ms: seq<MapDataV2>)
    requires forall k :: 0 <= k < |ms| ==> NotesInRange(ms[k])
    ensures forall i :: 0 <= i < |SortedCharts(ms)| ==> NotesInRange(SortedCharts(ms)[i])
  {
    SortedChartsKeepLargest(ms);
    var r := SortedCharts(ms);
    forall i | 0 <= i < |r| ensures NotesInRange(r[i]) {
      assert r[i] in multiset(r);
      assert r[i] in ms;
    }
  }

  /** The song `toStepFile` returns for the info data and chart files. */
  function StepFileOf(info: MapInfoDataV2, charts: seq<RawMapData>, itgOffset: real,
                      meterOf: real -> nat, numToString: real -> string): StepChart
    requires HasTempo(info)
    requires ChartsInRange(charts)
  {
    var sorted := SortedCharts(NormaliseAll(charts));
    SortedInRange(NormaliseAll(charts));
    SortedChartsKeepLargest(NormaliseAll(charts));
    var names := DifficultyNames(|sorted|);
    DifficultyNamesShape(|sorted|);
    WithCharts(SongConfigOf(info, numToString).value, ChartsFor(info, sorted, names, itgOffset, meterOf))
  }

  /** One chart per kept map, at most ten, from the map with the most notes
      down; every kept map is one of the files' maps, and every map left
      out has no more notes than any map kept; the offset is "0" when the
      song time offset is 0. */
  lemma StepFileShape(info: MapInfoDataV2, charts: seq<RawMapData>, itgOffset: real,
                      meterOf: real -> nat, numToString: real -> string)
    requires HasTempo(info)
    requires ChartsInRange(charts)
    ensures var r := StepFileOf(info, charts, itgOffset, meterOf, numToString);
      var maps := NormaliseAll(charts);
      var sorted := SortedCharts(maps);
      |r.charts| == |sorted| == KeptCount(|charts|) && ByNoteCount(sorted) &&
      (forall i :: 0 <= i < |sorted| ==> sorted[i] in maps) &&
      (forall x, i :: x in maps && x !in sorted && 0 <= i < |sorted| ==> |sorted[i].notes| >= |x.notes|) &&
      (info.songTimeOffset == 0.0 ==> r.offset == Some("0"))
  {
    var maps := NormaliseAll(charts);
    SortedChartsKeepLargest(maps);
    var sorted := SortedCharts(maps);
    forall i | 0 <= i < |sorted| ensures sorted[i] in maps {
      assert sorted[i] in multiset(sorted);
    }
  }

  /** Chart `i` of the song is the chart built from the `i`-th kept map
      under the `i`-th difficulty name. */
  lemma StepFileCharts(info: MapInfoDataV2, charts: seq<RawMapData>, itgOffset: real,
                       meterOf: real -> nat, numToString: real -> string, i: nat)
    requires HasTempo(info)
    requires ChartsInRange(charts)
    requires i < |StepFileOf(info, charts, itgOffset, meterOf, numToString).charts|
    ensures var sorted := SortedCharts(NormaliseAll(charts));
      i < |sorted| && NotesInRange(sorted[i]) && i < |DifficultyNames(|sorted|)| &&
      StepFileOf(info, charts, itgOffset, meterOf, numToString).charts[i] ==
      ChartFor(info, sorted[i], DifficultyNames(|sorted|)[i], itgOffset, meterOf)
  {
    var maps := NormaliseAll(charts);
    var sorted := SortedCharts(maps);
    SortedInRange(maps);
    DifficultyNamesShape(|sorted|);
    ChartsForAt(info, sorted, DifficultyNames(|sorted|), itgOffset, meterOf, i);
  }

  /** The parser, before and after `init` has read the files. */
  class SaberParser {
    var infoData: Option<MapInfoDataV2>
    var chartData: Option<seq<RawMapData>>

    /** The files are only handles until `init` reads them. */
    constructor ()
      ensures infoData.None? && chartData.None?
    {
      infoData, chartData := None, None;
    }

    /** `init`, given the decoded contents of the info file and of the
        chart files (reading and decoding them is not modelled). */
    method Init(info: MapInfoDataV2, charts: seq<RawMapData>)
      modifies this
      ensures infoData == Some(info) && chartData == Some(charts)
    {
      infoData, chartData := Some(info), Some(charts);
    }

    predicate Loaded()
      reads this
    {
      infoData.Some? && chartData.Some?
    }

    /** `getStepChartConfig`: 'No data' before `init`, the TypeError when
        the info file has no tempo. */
    method GetStepChartConfig(numToString: real -> string) returns (r: Result<SongConfig>)
      ensures !Loaded() ==> r == Failure(NoData)
      ensures Loaded() && !HasTempo(infoData.value) ==> r == Failure(NoTempo)
      ensures Loaded() ==> r == SongConfigOf(infoData.value, numToString)
    {
      if !Loaded() {
        return Failure(NoData);
      }
      return SongConfigOf(infoData.value, numToString);
    }

    /** `buildSteps`: 'No data' before `init`; the TypeError of
        `getStepChartConfig` when the info file has no tempo; otherwise a
        fresh builder with no placement settings builds the map's chart. */
    method BuildSteps(data: MapDataV2, name: string, itgOffset: real, meterOf: real -> nat) returns (r: Result<Chart>)
      requires NotesInRange(data)
      ensures !Loaded() ==> r == Failure(NoData)
      ensures Loaded() && !HasTempo(infoData.value) ==> r == Failure(NoTempo)
      ensures Loaded() && HasTempo(infoData.value) ==> r == Success(ChartFor(infoData.value, data, name, itgOffset, meterOf))
    {
      if !Loaded() {
        return Failure(NoData);
      }
      if !HasTempo(infoData.value) {
        return Failure(NoTempo);
      }
      var s := SettingsFor(infoData.value, data, name);
      assert ExactGrid(24) && SB.AutoSnap(s.minGapForAutoSnapping) == 24;
      SB.ChartNeverFails(NoRules, s, itgOffset, InitialState, 0, meterOf);
      var builder := new SB.StepBuilder(NoRules, s, itgOffset);
      r := builder.Build(meterOf);
    }

    /** `parsedData.map((data, index) => buildSteps(data, names[index]))`
        once data with a tempo is loaded. */
    method BuildCharts(maps: seq<MapDataV2>, names: seq<string>, itgOffset: real, meterOf: real -> nat)
      returns (stepCharts: seq<Chart>)
      requires Loaded() && HasTempo(infoData.value)
      requires |names| >= |maps| && forall i :: 0 <= i < |maps| ==> NotesInRange(maps[i])
      ensures stepCharts == ChartsFor(infoData.value, maps, names, itgOffset, meterOf)
    {
      stepCharts := [];
      ghost var info := infoData.value;
      for i := 0 to |maps|
        invariant stepCharts == ChartsFor(info, maps[..i], names, itgOffset, meterOf)
      {
        var chart := BuildSteps(maps[i], names[i], itgOffset, meterOf);
        ChartsForSnoc(info, maps, names, itgOffset, meterOf, i);
        stepCharts := stepCharts + [chart.value];
      }
      assert maps[..|maps|] == maps;
    }

    /** `toStepFile`: 'No data' before `init`; the TypeError of
        `getStepChartConfig` when the info file has no tempo (thrown by the
        first `buildSteps`, or by the config itself when there is no chart);
        otherwise the song of `StepFileOf`. */
    method ToStepFile(itgOffset: real, meterOf: real -> nat, numToString: real -> string) returns (r: Result<StepChart>)
      requires chartData.Some? ==> ChartsInRange(chartData.value)
      ensures !Loaded() ==> r == Failure(NoData)
      ensures Loaded() && !HasTempo(infoData.value) ==> r == Failure(NoTempo)
      ensures Loaded() && HasTempo(infoData.value) ==>
        r == Success(StepFileOf(infoData.value, chartData.value, itgOffset, meterOf, numToString))
    {
      if !Loaded() {
        return Failure(NoData);
      }
      if !HasTempo(infoData.value) {
        return Failure(NoTempo);
      }
      var charts := chartData.value;
      var maps := NormaliseAll(charts);
      var parsedData := new MapDataV2[|charts|](i requires 0 <= i < |charts| => Normalise(charts[i]));
      assert parsedData[..] == maps;
      var sorted := SortChartData(parsedData);
      SortedInRange(maps);
      var names := GetChartDifficultyNames(|sorted|);
      DifficultyNamesShape(|sorted|);
      var stepCharts := BuildCharts(sorted, names, itgOffset, meterOf);
      var config := GetStepChartConfig(numToString);
      r := Success(WithCharts(config.value, stepCharts));
    }
  }
}
