/** The StepMania chart records the converter produces. */
module StepTypes {
  import opened Wrappers

  /** One lane of a tick: '0' (or the number 0 in padding measures), '1', 'M'. */
  datatype Cell = Empty | Tap | Mine

  /** One row of four lanes. */
  type Tick = seq<Cell>

  /** The ticks of one 4-beat measure. */
  type Measure = seq<Tick>

  /** The character a cell is written as. */
  function CellChar(c: Cell): char
  {
    match c
    case Empty => '0'
    case Tap => '1'
    case Mine => 'M'
  }

  /** A chart, with the statistics fields the builder attaches to it. */
  datatype Chart = Chart(
    chartType: string,
    name: string,
    meter: string,
    notes: seq<Measure>,
    hands: nat,
    jump: nat,
    tap: nat,
    hold: nat,
    bomb: nat)

  /** A song with its charts; optional fields are `Option`s. */
  datatype StepChart = StepChart(
    title: string,
    subtitle: Option<string>,
    artist: Option<string>,
    genre: Option<string>,
    credit: Option<string>,
    banner: Option<string>,
    background: Option<string>,
    music: Option<string>,
    offset: Option<string>,
    outputOffset: Option<string>,
    bpms: string,
    sampleStart: Option<string>,
    sampleLength: Option<string>,
    charts: seq<Chart>)

  /** JavaScript's `s || d` on an optional string: the empty string is falsy. */
  function OrElse(s: Option<string>, d: string): (r: string)
    ensures s.Some? && s.value != "" ==> r == s.value
    ensures (s.None? || s.value == "") ==> r == d
  {
    if s.Some? && s.value != "" then s.value else d
  }
}
