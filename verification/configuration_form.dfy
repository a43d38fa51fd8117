/**
  The validation rules of the map forms: the BeatSaver link a map is
  fetched by, and the files a map is built from. A form field that is
  unset is `None`.
 */
module ConfigurationForm {
  import opened Wrappers
  import opened Strings

  // ---------------------------------------------------------------------
  // The map link

  /** What every map link starts with. */
  const MapLinkPrefix: string := "https://beatsaver.com/maps/"

  const LinkRequiredMessage: string := "Please enter a valid Beat Saber map link"
  const LinkPatternMessage: string := "Link does not match pattern /^https://beatsaver.com/maps/([a-zA-Z0-9-]+)$/"

  /** `[a-zA-Z0-9\-]`. */
  predicate IdChar(c: char)
  {
    ('a' <= c <= 'z') || ('A' <= c <= 'Z') || ('0' <= c <= '9') || c == '-'
  }

  /** `([a-zA-Z0-9\-]+)`: a map id. */
  predicate ValidId(id: string)
  {
    |id| > 0 && forall i :: 0 <= i < |id| ==> IdChar(id[i])
  }

  /** The pattern, read from the front: the prefix, then id characters to
      the end, at least one. */
  predicate MatchesFrom(s: string, i: nat)
    requires |MapLinkPrefix| <= i <= |s|
    decreases |s| - i
  {
    if i == |s| then i > |MapLinkPrefix|
    else IdChar(s[i]) && MatchesFrom(s, i + 1)
  }

  /** `^https:\/\/beatsaver\.com\/maps\/([a-zA-Z0-9\-]+)$`. */
  predicate MatchesLinkPattern(s: string)
  {
    |s| >= |MapLinkPrefix| && s[..|MapLinkPrefix|] == MapLinkPrefix && MatchesFrom(s, |MapLinkPrefix|)
  }

  /** `linkValidationSchema`: the message a link is refused with, if any. A
      missing or empty link fails `required`, any other the pattern. */
  function LinkError(mapLink: Option<string>): (e: Option<string>)
    ensures mapLink.None? || mapLink == Some("") ==> e == Some(LinkRequiredMessage)
    ensures e.None? ==> mapLink.Some? && MatchesLinkPattern(mapLink.value)
  {
    if mapLink.None? || mapLink.value == "" then Some(LinkRequiredMessage)
    else if MatchesLinkPattern(mapLink.value) then None
    else Some(LinkPatternMessage)
  }

  /** `getValues('mapLink').replace('https://beatsaver.com/maps/', '')`:
      the map id of a link. */
  function MapId(mapLink: string): string
  {
    ReplaceFirst(mapLink, MapLinkPrefix, "")
  }

  /** The id characters from position `i` on are all id characters. */
  lemma {:induction false} MatchesFromIds(s: string, i: nat)
    requires |MapLinkPrefix| <= i <= |s|
    ensures MatchesFrom(s, i) <==>
      (i > |MapLinkPrefix| || i < |s|) && forall j :: i <= j < |s| ==> IdChar(s[j])
    decreases |s| - i
  {
    if i < |s| {
      MatchesFromIds(s, i + 1);
    }
  }

  /** A link is accepted exactly when it is the prefix followed by a valid
      id. */
  lemma ValidLinkIffPrefixedId(s: string)
    ensures LinkError(Some(s)) == None <==> MapLinkPrefix <= s && ValidId(s[|MapLinkPrefix|..])
  {
    if |s| >= |MapLinkPrefix| {
      MatchesFromIds(s, |MapLinkPrefix|);
      var id := s[|MapLinkPrefix|..];
      assert forall j :: |MapLinkPrefix| <= j < |s| ==> s[j] == id[j - |MapLinkPrefix|];
    }
  }

  /** Every id makes an accepted link, and stripping the prefix off that
      link gives the id back. */
  lemma IdRoundTrip(id: string)
    requires ValidId(id)
    ensures LinkError(Some(MapLinkPrefix + id)) == None
    ensures MapId(MapLinkPrefix + id) == id
  {
    var s := MapLinkPrefix + id;
    assert s[|MapLinkPrefix|..] == id;
    ValidLinkIffPrefixedId(s);
    ReplaceFirstAtStart(MapLinkPrefix, id, "");
  }

  /** An accepted link is the prefix and its map id, and the id is valid. */
  lemma AcceptedLinkRoundTrip(s: string)
    requires LinkError(Some(s)) == None
    ensures ValidId(MapId(s)) && s == MapLinkPrefix + MapId(s)
  {
    ValidLinkIffPrefixedId(s);
    var id := s[|MapLinkPrefix|..];
    assert s == MapLinkPrefix + id;
    ReplaceFirstAtStart(MapLinkPrefix, id, "");
  }

  /** The prefix alone, a trailing slash and plain `http` are refused. */
  lemma RefusedLinks()
    ensures LinkError(Some(MapLinkPrefix)) == Some(LinkPatternMessage)
    ensures LinkError(Some(MapLinkPrefix + "3a5f/")) == Some(LinkPatternMessage)
    ensures LinkError(Some("http://beatsaver.com/maps/3a5f")) == Some(LinkPatternMessage)
  {
    ValidLinkIffPrefixedId(MapLinkPrefix);
    var slash := MapLinkPrefix + "3a5f/";
    ValidLinkIffPrefixedId(slash);
    assert slash[|MapLinkPrefix|..][4] == '/';
    var http := "http://beatsaver.com/maps/3a5f";
    assert http[4] != MapLinkPrefix[4];
  }

  // ---------------------------------------------------------------------
  // The map files

  /** An uploaded file; only whether it is there matters here. */
  datatype File = File(name: string)

  datatype InputType = Link | Manual

  /** `ConfigurationFormState`, with the `mapLink` the form also holds. */
  datatype MapForm = MapForm(
    infoFile: Option<File>,
    musicFile: Option<File>,
    chartFiles: Option<seq<Option<File>>>,
    backgroundFile: Option<File>,
    inputType: Option<InputType>,
    mapLink: Option<string>)

  /** The fields of `mapValidationSchema` that can fail. */
  datatype MapFormError =
    | MissingInfoFile
    | MissingMusicFile
    | MissingChartFiles
    | TooFewChartFiles
    | MissingChartFile(index: nat)

  /** The index of every unset chart file from `from` on. */
  function UnsetChartFiles(files: seq<Option<File>>, from: nat): (errs: seq<MapFormError>)
    requires from <= |files|
    ensures |errs| <= |files| - from
    ensures errs == [] <==> forall i :: from <= i < |files| ==> files[i].Some?
    ensures forall e :: e in errs ==> e.MissingChartFile?
    ensures forall i: nat :: MissingChartFile(i) in errs <==> from <= i < |files| && files[i].None?
    decreases |files| - from
  {
    if from == |files| then []
    else (if files[from].None? then [MissingChartFile(from)] else []) + UnsetChartFiles(files, from + 1)
  }

  /** The failing rules of the chart file list. */
  function ChartListErrors(files: Option<seq<Option<File>>>): (errs: seq<MapFormError>)
    ensures MissingInfoFile !in errs && MissingMusicFile !in errs
    ensures MissingChartFiles in errs <==> files.None?
    ensures TooFewChartFiles in errs <==> files.Some? && |files.value| == 0
    ensures forall i: nat :: MissingChartFile(i) in errs <==>
      files.Some? && i < |files.value| && files.value[i].None?
  {
    if files.None? then [MissingChartFiles]
    else (if |files.value| < 1 then [TooFewChartFiles] else []) + UnsetChartFiles(files.value, 0)
  }

  /** `mapValidationSchema`: the failing rules, in the order of the schema.
      The info and music files are required, the chart file list is
      required, must hold at least one file, and every entry is required;
      the background, input type and link are free. */
  function MapFormErrors(f: MapForm): (errs: seq<MapFormError>)
    ensures MissingInfoFile in errs <==> f.infoFile.None?
    ensures MissingMusicFile in errs <==> f.musicFile.None?
    ensures MissingChartFiles in errs <==> f.chartFiles.None?
    ensures TooFewChartFiles in errs <==> f.chartFiles.Some? && |f.chartFiles.value| == 0
    ensures forall i: nat :: MissingChartFile(i) in errs <==>
      f.chartFiles.Some? && i < |f.chartFiles.value| && f.chartFiles.value[i].None?
  {
    (if f.infoFile.None? then [MissingInfoFile] else []) +
    (if f.musicFile.None? then [MissingMusicFile] else []) +
    ChartListErrors(f.chartFiles)
  }

  predicate ValidMapForm(f: MapForm)
  {
    MapFormErrors(f) == []
  }

  /** A form is valid exactly when it has an info file, a music file and at
      least one chart file, with no chart entry unset. */
  lemma ValidMapFormIff(f: MapForm)
    ensures ValidMapForm(f) <==>
      f.infoFile.Some? && f.musicFile.Some? && f.chartFiles.Some? && |f.chartFiles.value| >= 1 &&
      forall i :: 0 <= i < |f.chartFiles.value| ==> f.chartFiles.value[i].Some?
  {
  }

  /** The background file, the input type and the link never decide
      validity. */
  lemma OptionalFieldsIgnored(f: MapForm, background: Option<File>, inputType: Option<InputType>, mapLink: Option<string>)
    ensures MapFormErrors(f.(backgroundFile := background, inputType := inputType, mapLink := mapLink)) == MapFormErrors(f)
  {
  }

  /** The form's starting state: no chart files, input by link. */
  const DefaultMapForm: MapForm := MapForm(None, None, Some([]), None, Some(Link), None)

  /** The starting state is refused: no info file, no music file and fewer
      than one chart file. */
  lemma DefaultMapFormInvalid()
    ensures MapFormErrors(DefaultMapForm) == [MissingInfoFile, MissingMusicFile, TooFewChartFiles]
    ensures !ValidMapForm(DefaultMapForm)
  {
  }
}
