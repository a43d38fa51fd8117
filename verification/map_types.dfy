/** The Beat Saber map records the converter reads (v2 and v3 schemas). */
module MapTypes {
  import opened Wrappers

  /** A v2 note. `noteType` is 0 for the left hand, 1 for the right hand and
      3 for a bomb; `lineIndex` is the lane 0..3; `time` is in beats. */
  datatype NoteV2 = NoteV2(cutDirection: int, lineIndex: int, lineLayer: int, noteType: int, time: real)

  /** A v3 colour note, with the field meanings the repository declares:
      `b` beat, `x` lane, `y` layer, `a` note type, `c` cut direction, `d`
      additional data. */
  datatype ColorNote = ColorNote(b: real, x: int, y: int, a: int, c: int, d: int)

  /** A v2 obstacle (walls are not converted; only carried along). */
  datatype ObstacleV2 = ObstacleV2(duration: real, lineIndex: int, time: real, obstacleType: int, width: int)

  datatype MapDataV2 = MapDataV2(notes: seq<NoteV2>, obstacles: seq<ObstacleV2>, version: string)

  /** A decoded chart file as the parser sees it before normalisation: the
      v3 fields (`version`, `colorNotes`) and the v2 fields (`v2`); whichever
      schema the file does not use is empty. */
  datatype RawMapData = RawMapData(version: Option<string>, colorNotes: seq<ColorNote>, v2: MapDataV2)

  /** The song-level fields of `Info.dat` that the converter reads. The
      tempo is `None` when the file has none; the other numbers are 0 when
      missing, since the parser reads them only through a falsy test. */
  datatype MapInfoDataV2 = MapInfoDataV2(
    songName: string,
    songSubName: string,
    songAuthorName: string,
    levelAuthorName: string,
    beatsPerMinute: Option<real>,
    previewStartTime: real,
    previewDuration: real,
    songTimeOffset: real)
}
