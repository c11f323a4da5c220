/** The data of the dynamic-music manager: sound instances, segments, transitions, intensities,
    command-queue items, playing segment states and the manager's whole state as a value. */
module MusicTypes {
  import opened Common

  /** When a segment change takes effect. */
  datatype Enact = EnactInvalid | EnactDefault | EnactImmediately | EnactNextBeat | EnactNextMeasure
                 | EnactNextGrid | EnactNextSegment | EnactNextMarker

  /** The engine's result codes used here. */
  datatype LtResult = LtOk | LtError | LtOverflow

  /** A sound instance, reduced to what the sequencer reads: its length in milliseconds, the time
      left to play (counting down) and whether a sample is attached. */
  datatype SoundInstance = SoundInstance(duration: nat, timer: nat, hasSample: bool)

  /** The instances of a segment, played one after the other, identified by their keys in the
      manager's instance table. */
  type InstanceIds = s: seq<nat> | |s| > 0 witness [0]

  /** An instance array; `key` is the array's identity (its address). */
  datatype InstanceArray = InstanceArray(key: nat, ids: InstanceIds)

  /** A loaded segment: its name, its instance array (None when it has none) and its default enact time. */
  datatype Segment = Segment(name: string, instances: Option<InstanceArray>, defaultEnact: Enact)

  /** An entry of the transition matrix. */
  datatype Transition = Transition(enactTime: Enact, instances: Option<InstanceArray>)

  /** An intensity: how often to loop its playlist, the intensity to switch to when done (0 for
      none) and the playlist. */
  datatype Intensity = Intensity(numLoops: int, toSetAtFinish: int, segments: seq<Segment>)

  /** A playing segment: its instance array, the segment it came from (None for a transition) and
      how many of its instances have been started. */
  datatype SegState = SegState(instances: Option<InstanceArray>, segment: Option<Segment>, current: nat)

  /** The items of the two command queues. */
  datatype Command =
    | CmdNull
    | CmdLoopToStart(loops: int)
    | CmdChangeIntensity(intensity: int)
    | CmdPauseQueue
    | CmdPlaySegment(segment: Segment)
    | CmdStopSegment(segment: Segment)
    | CmdPlayTransition(transition: Transition)
    | CmdPlaySecondarySegment(segment: Segment)
    | CmdPlayMotif(segment: Segment)
    | CmdStopPlaying
    | CmdAdjustVolume
    | CmdClearOldCommands

  /** The three pools of playing segment states. */
  datatype Pool = PrimaryPool | SecondaryPool | MotifPool

  /** What a level loads and the sequencer only reads: the intensity table (entry 0 unused), the
      flattened transition matrix, and the secondary segments and motifs that can be played by name. */
  datatype LevelData = LevelData(numIntensities: int, intensities: seq<Intensity>, transitions: seq<Transition>,
                                 segments: seq<Segment>, motifs: seq<Segment>)

  /** The manager's state. `lastCommand` is the cursor into `commands` (None for the null cursor);
      the pools list the most recently started state first. */
  datatype MusicState = MusicState(
    initialized: bool,
    levelInitialized: bool,
    level: LevelData,
    commands: seq<Command>,
    commands2: seq<Command>,
    lastCommand: Option<nat>,
    primary: seq<SegState>,
    secondary: seq<SegState>,
    motifsPlaying: seq<SegState>,
    paused: nat,
    curIntensity: int,
    prevIntensity: int,
    sounds: map<nat, SoundInstance>)

  /** How an operation ends: it returns (operations without a result report LtOk), it never
      returns, or it reaches undefined behaviour (a freed item or an out-of-range element is read). */
  datatype Outcome = Returned(result: LtResult, st: MusicState) | Hangs | Fault

  /** What a caller of the manager observes of an outcome. */
  datatype Status = Finished(result: LtResult) | Diverged | Faulted

  function StatusOf(o: Outcome): Status
  {
    match o
    case Returned(res, _) => Finished(res)
    case Hangs => Diverged
    case Fault => Faulted
  }

  /** The state of pool `p`. */
  function PoolOf(st: MusicState, p: Pool): seq<SegState>
  {
    match p
    case PrimaryPool => st.primary
    case SecondaryPool => st.secondary
    case MotifPool => st.motifsPlaying
  }

  function WithPool(st: MusicState, p: Pool, states: seq<SegState>): (r: MusicState)
    ensures PoolOf(r, p) == states
  {
    match p
    case PrimaryPool => st.(primary := states)
    case SecondaryPool => st.(secondary := states)
    case MotifPool => st.(motifsPlaying := states)
  }

  /** ASCII lower-casing, as the C library's case-insensitive comparison does it. */
  function LowerChar(c: char): (d: char)
  {
    if 'A' <= c <= 'Z' then (c as int - 'A' as int + 'a' as int) as char else c
  }

  function Lower(s: string): (t: string)
    ensures |t| == |s|
  {
    seq(|s|, i requires 0 <= i < |s| => LowerChar(s[i]))
  }

  /** `stricmp(a, b) == 0`. */
  predicate NameEq(a: string, b: string)
  {
    Lower(a) == Lower(b)
  }
}
