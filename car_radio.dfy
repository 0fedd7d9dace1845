/**
 * The car radio widget: a fixed table of five stations, the index of the
 * current one, a volume and a play/pause flag.  Every handler replaces one of
 * the three state values wholesale, so the radio is a datatype with one
 * transition function per handler.
 */
module CarRadio {

  datatype Station = Station(id: int, name: string, genre: string, frequency: string)

  /** The station table, in the order the buttons step through it. */
  const Stations: seq<Station> := [
    Station(1, "Hit FM", "Поп", "107.9"),
    Station(2, "Rock Station", "Рок", "101.3"),
    Station(3, "Dance Energy", "Электроника", "95.5"),
    Station(4, "Jazz Lounge", "Джаз", "88.7"),
    Station(5, "Retro Wave", "Ретро", "103.2")
  ]

  /** `stations.length`. */
  const StationCount: int := |Stations|

  datatype Radio = Radio(current: int, volume: int, playing: bool)

  /** The widget's state when it is first shown. */
  function Initial(): Radio
  {
    Radio(0, 50, true)
  }

  /** `stations[currentStation]` is defined. */
  predicate Valid(r: Radio)
  {
    0 <= r.current < StationCount
  }

  /**
   * JavaScript's `%` by the table length: the remainder takes the sign of the
   * dividend.  It is the unique value congruent to `a` modulo the table length
   * that lies strictly between minus and plus that length and has the sign of `a`.
   */
  function JsRem(a: int): (r: int)
    ensures -StationCount < r < StationCount
    ensures (a - r) % StationCount == 0
    ensures a >= 0 ==> r >= 0
    ensures a <= 0 ==> r <= 0
  {
    if a >= 0 then a % StationCount else -((-a) % StationCount)
  }

  /** The station shown, `stations[currentStation]`. */
  function CurrentStation(r: Radio): (s: Station)
    requires Valid(r)
    ensures s in Stations
    ensures s.id == r.current + 1
  {
    Stations[r.current]
  }

  /** The forward button: one station on, wrapping from the last to the first. */
  function NextStation(r: Radio): (r': Radio)
    ensures r'.volume == r.volume && r'.playing == r.playing
    ensures Valid(r) ==> Valid(r')
    ensures Valid(r) ==> r'.current == if r.current == StationCount - 1 then 0 else r.current + 1
  {
    r.(current := JsRem(r.current + 1))
  }

  /** The back button: one station back, wrapping from the first to the last. */
  function PrevStation(r: Radio): (r': Radio)
    ensures r'.volume == r.volume && r'.playing == r.playing
    ensures Valid(r) ==> Valid(r')
    ensures Valid(r) ==> r'.current == if r.current == 0 then StationCount - 1 else r.current - 1
  {
    r.(current := JsRem(r.current - 1 + StationCount))
  }

  /** The play/pause button. */
  function TogglePlay(r: Radio): (r': Radio)
    ensures r'.playing != r.playing
    ensures r'.current == r.current && r'.volume == r.volume
  {
    r.(playing := !r.playing)
  }

  /** The volume slider; the slider's external callback is not part of the state. */
  function SetVolume(r: Radio, v: int): (r': Radio)
    ensures r'.volume == v
    ensures r'.current == r.current && r'.playing == r.playing
  {
    r.(volume := v)
  }

  lemma PrevUndoesNext(r: Radio)
    requires Valid(r)
    ensures PrevStation(NextStation(r)) == r
  {
  }

  lemma NextUndoesPrev(r: Radio)
    requires Valid(r)
    ensures NextStation(PrevStation(r)) == r
  {
  }

  lemma TogglePlayInvolution(r: Radio)
    ensures TogglePlay(TogglePlay(r)) == r
  {
  }

  /** Only the last slider position counts. */
  lemma SetVolumeLastWins(r: Radio, a: int, b: int)
    ensures SetVolume(SetVolume(r, a), b) == SetVolume(r, b)
  {
  }

  /** `k` presses of the forward button. */
  function NextTimes(r: Radio, k: nat): Radio
    decreases k
  {
    if k == 0 then r else NextStation(NextTimes(r, k - 1))
  }

  lemma {:induction false} NextTimesAdvances(r: Radio, k: nat)
    requires Valid(r)
    ensures Valid(NextTimes(r, k))
    ensures NextTimes(r, k).current == (r.current + k) % StationCount
    ensures NextTimes(r, k).volume == r.volume && NextTimes(r, k).playing == r.playing
  {
    if k > 0 {
      NextTimesAdvances(r, k - 1);
    }
  }

  /** Pressing forward a whole number of turns round the table comes back to the start. */
  lemma NextTimesWholeTurns(r: Radio, k: nat)
    requires Valid(r) && k % StationCount == 0
    ensures NextTimes(r, k) == r
  {
    NextTimesAdvances(r, k);
  }

  /** Pressing forward as many times as there are stations comes back round. */
  lemma FullCycle(r: Radio)
    requires Valid(r)
    ensures NextTimes(r, |Stations|) == r
  {
    NextTimesWholeTurns(r, |Stations|);
  }

  /** The button presses and slider moves a user can make. */
  datatype Input = Next | Prev | PlayPause | Volume(v: int)

  function Step(r: Radio, i: Input): Radio
  {
    match i
    case Next => NextStation(r)
    case Prev => PrevStation(r)
    case PlayPause => TogglePlay(r)
    case Volume(v) => SetVolume(r, v)
  }

  function Run(r: Radio, inputs: seq<Input>): Radio
    decreases |inputs|
  {
    if inputs == [] then r else Run(Step(r, inputs[0]), inputs[1..])
  }

  /** Whatever the user does, the station shown is always one of the table's. */
  lemma {:induction false} RunKeepsStationDefined(r: Radio, inputs: seq<Input>)
    requires Valid(r)
    ensures Valid(Run(r, inputs))
    ensures CurrentStation(Run(r, inputs)) in Stations
    decreases |inputs|
  {
    if inputs != [] {
      RunKeepsStationDefined(Step(r, inputs[0]), inputs[1..]);
    }
  }

  lemma InitialValid()
    ensures Valid(Initial())
    ensures CurrentStation(Initial()).name == "Hit FM"
  {
  }
}
