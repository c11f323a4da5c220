/** The dynamic-music sequencer as functions on its state value: each operation of the manager
    maps the state before the call to an outcome. */
module MusicSpec {
  import opened Common
  import opened MusicTypes

  // ---------------------------------------------------------------- list searches

  /** The first state of a pool playing instance array `arr` (pointer comparison). */
  function FindByArray(pool: seq<SegState>, arr: Option<InstanceArray>): (r: Option<nat>)
    ensures r.Some? ==> r.value < |pool| && pool[r.value].instances == arr
                        && forall j :: 0 <= j < r.value ==> pool[j].instances != arr
    ensures r.None? ==> forall j :: 0 <= j < |pool| ==> pool[j].instances != arr
  {
    if |pool| == 0 then None
    else if pool[0].instances == arr then Some(0)
    else match FindByArray(pool[1..], arr)
      case None => None
      case Some(i) => Some(i + 1)
  }

  /** A state started from a segment of this name (compared without regard to case). */
  predicate Named(s: SegState, name: string)
  {
    s.segment.Some? && NameEq(s.segment.value.name, name)
  }

  /** The first state of a pool whose segment has this name; a null name finds nothing. */
  function FindByName(pool: seq<SegState>, name: Option<string>): (r: Option<nat>)
    ensures r.Some? ==> name.Some? && r.value < |pool| && Named(pool[r.value], name.value)
                        && forall j :: 0 <= j < r.value ==> !Named(pool[j], name.value)
    ensures r.None? && name.Some? ==> forall j :: 0 <= j < |pool| ==> !Named(pool[j], name.value)
  {
    if name.None? || |pool| == 0 then None
    else if Named(pool[0], name.value) then Some(0)
    else match FindByName(pool[1..], name)
      case None => None
      case Some(i) => Some(i + 1)
  }

  /** The first segment of a list with this name; a null name finds nothing. */
  function FindSegment(segs: seq<Segment>, name: Option<string>): (r: Option<nat>)
    ensures r.Some? ==> name.Some? && r.value < |segs| && NameEq(segs[r.value].name, name.value)
                        && forall j :: 0 <= j < r.value ==> !NameEq(segs[j].name, name.value)
    ensures r.None? && name.Some? ==> forall j :: 0 <= j < |segs| ==> !NameEq(segs[j].name, name.value)
  {
    if name.None? || |segs| == 0 then None
    else if NameEq(segs[0].name, name.value) then Some(0)
    else match FindSegment(segs[1..], name)
      case None => None
      case Some(i) => Some(i + 1)
  }

  /** The first segment of a playlist that has an instance array. */
  function FirstPlayable(segs: seq<Segment>): (r: Option<nat>)
    ensures r.Some? ==> r.value < |segs| && segs[r.value].instances.Some?
                        && forall j :: 0 <= j < r.value ==> segs[j].instances.None?
    ensures r.None? ==> forall j :: 0 <= j < |segs| ==> segs[j].instances.None?
  {
    if |segs| == 0 then None
    else if segs[0].instances.Some? then Some(0)
    else match FirstPlayable(segs[1..])
      case None => None
      case Some(i) => Some(i + 1)
  }

  function Remove<T>(s: seq<T>, i: nat): (r: seq<T>)
    requires i < |s|
    ensures |r| == |s| - 1
    ensures forall j :: 0 <= j < i ==> r[j] == s[j]
    ensures forall j :: i <= j < |r| ==> r[j] == s[j + 1]
  {
    s[..i] + s[i + 1..]
  }

  // ---------------------------------------------------------------- playing

  /** Starting an instance: it succeeds exactly when the instance has a sample, and then rewinds
      its timer to its full length and, when asked to, forgets the previous intensity. An instance
      missing from the table is read as one without a sample. */
  function PlayInstance(st: MusicState, id: nat, resetPrev: bool): (r: (bool, MusicState))
    ensures r.0 <==> id in st.sounds && st.sounds[id].hasSample
    ensures !r.0 ==> r.1 == st
    ensures r.0 ==> r.1 == st.(sounds := st.sounds[id := st.sounds[id].(timer := st.sounds[id].duration)],
                               prevIntensity := if resetPrev then 0 else st.prevIntensity)
  {
    if id in st.sounds && st.sounds[id].hasSample then
      var inst := st.sounds[id];
      (true, st.(sounds := st.sounds[id := inst.(timer := inst.duration)],
                 prevIntensity := if resetPrev then 0 else st.prevIntensity))
    else (false, st)
  }

  /** Recording a started array as a new state at the head of a pool, one instance started. */
  function CreateSegmentState(st: MusicState, p: Pool, arr: InstanceArray, seg: Option<Segment>): (r: MusicState)
    ensures PoolOf(r, p) == [SegState(Some(arr), seg, 1)] + PoolOf(st, p)
  {
    WithPool(st, p, [SegState(Some(arr), seg, 1)] + PoolOf(st, p))
  }

  /** Playing the first instance of an array and, when that succeeds, recording it in pool `p`. */
  function StartArray(st: MusicState, p: Pool, arr: InstanceArray, seg: Option<Segment>, resetPrev: bool): (r: MusicState)
    ensures r.commands == st.commands && r.commands2 == st.commands2 && r.lastCommand == st.lastCommand
    ensures r.level == st.level && r.curIntensity == st.curIntensity && r.paused == st.paused
    ensures r.initialized == st.initialized && r.levelInitialized == st.levelInitialized
  {
    var (played, st1) := PlayInstance(st, arr.ids[0], resetPrev);
    if played then CreateSegmentState(st1, p, arr, seg) else st1
  }

  /** Removing the state at index i from pool p (its instances are told to stop). */
  function CleanupSegmentState(st: MusicState, p: Pool, i: nat): (r: MusicState)
    requires i < |PoolOf(st, p)|
    ensures PoolOf(r, p) == Remove(PoolOf(st, p), i)
  {
    WithPool(st, p, Remove(PoolOf(st, p), i))
  }

  // ---------------------------------------------------------------- transitions

  /** The index of the transition from intensity `from` to intensity `to`: the computed entry
      when both intensities are positive, neither exceeds the matrix size and the entry exists,
      otherwise entry 0. */
  function TransitionIndex(level: LevelData, from: int, to: int): (i: nat)
    requires |level.transitions| > 0
    ensures i < |level.transitions|
    ensures i != 0 ==> i == from + 1 + to * (level.numIntensities + 1)
    ensures from <= 0 || to <= 0 || from > |level.transitions| || to > |level.transitions| ==> i == 0
    ensures 0 < from <= |level.transitions| && 0 < to <= |level.transitions|
            && 0 <= from + 1 + to * (level.numIntensities + 1) < |level.transitions|
            ==> i == from + 1 + to * (level.numIntensities + 1)
  {
    var count := |level.transitions|;
    var index := from + 1 + to * (level.numIntensities + 1);
    if from > count || from <= 0 || to > count || to <= 0 || index >= count || index < 0 then 0
    else index
  }

  function GetTransition(level: LevelData, from: int, to: int): Transition
    requires |level.transitions| > 0
  {
    level.transitions[TransitionIndex(level, from, to)]
  }

  /** The matrix a level builds with N intensities has (N+1)*(N+1)+1 entries: then the transition
      between any two real intensities has its own entry and never falls back to entry 0. */
  lemma TransitionHasOwnEntry(level: LevelData, from: int, to: int)
    requires level.numIntensities >= 0
    requires |level.transitions| == (level.numIntensities + 1) * (level.numIntensities + 1) + 1
    requires 1 <= from <= level.numIntensities && 1 <= to <= level.numIntensities
    ensures TransitionIndex(level, from, to) == from + 1 + to * (level.numIntensities + 1)
    ensures TransitionIndex(level, from, to) != 0
  {
    var n := level.numIntensities;
    var m := n + 1;
    var tm := to * m;
    var nm := n * m;
    assert tm <= nm by {
      MulLe(to, n, m);
    }
    assert m * m == nm + m;
    assert from + 1 + tm < |level.transitions|;
    assert tm >= m by {
      MulLe(1, to, m);
    }
  }

  lemma {:induction false} MulLe(a: int, b: int, c: nat)
    requires a <= b
    ensures a * c <= b * c
  {
    if c > 0 {
      MulLe(a, b, c - 1);
      assert a * c == a * (c - 1) + a;
      assert b * c == b * (c - 1) + b;
    }
  }

  // ---------------------------------------------------------------- pausing and stopping

  function Pause(st: MusicState): (r: Outcome)
    ensures r.Returned?
    ensures r.result == LtOk <==> st.initialized && st.levelInitialized
    ensures r.result == LtOk ==> r.st == st.(paused := st.paused + 1)
    ensures r.result != LtOk ==> r.st == st
  {
    if !st.initialized || !st.levelInitialized then Returned(LtError, st)
    else Returned(LtOk, st.(paused := st.paused + 1))
  }

  /** UnPause as written: it fails whenever the manager or the level IS initialised. */
  function UnPause(st: MusicState): (r: Outcome)
    ensures r.Returned?
  {
    if st.initialized then Returned(LtError, st)
    else if st.levelInitialized then Returned(LtError, st)
    else if st.paused == 0 then Returned(LtOverflow, st)
    else Returned(LtOk, st.(paused := st.paused - 1))
  }

  /** Every pause of a manager that can be paused is permanent: UnPause then always fails and
      changes nothing. */
  lemma PauseIsPermanent(st: MusicState)
    requires Pause(st).result == LtOk
    ensures UnPause(Pause(st).st) == Returned(LtError, Pause(st).st)
  {
  }

  /** UnPause as its guards evidently mean it: it fails unless the manager and the level are
      initialised, reports overflow when nothing is paused, and otherwise lifts one pause. */
  function UnPauseCorrected(st: MusicState): (r: Outcome)
    ensures r.Returned?
    ensures r.result == LtOk <==> st.initialized && st.levelInitialized && st.paused > 0
    ensures r.result == LtOk ==> r.st == st.(paused := st.paused - 1)
    ensures r.result != LtOk ==> r.st == st
  {
    if !st.initialized then Returned(LtError, st)
    else if !st.levelInitialized then Returned(LtError, st)
    else if st.paused == 0 then Returned(LtOverflow, st)
    else Returned(LtOk, st.(paused := st.paused - 1))
  }

  /** With the corrected UnPause a pause is undone: a successful Pause followed by it gives back
      the manager as it was. */
  lemma UnPauseUndoesPause(st: MusicState)
    requires Pause(st).result == LtOk
    ensures UnPauseCorrected(Pause(st).st) == Returned(LtOk, st)
  {
  }

  /** `while (paused) UnPause();` — None when an UnPause call makes no progress, so that the loop
      repeats the same call forever. */
  function UnPauseAll(st: MusicState): (r: Option<MusicState>)
    decreases st.paused
    ensures r.Some? ==> r.value.paused == 0
  {
    if st.paused == 0 then Some(st)
    else
      var st' := UnPause(st).st;
      if st'.paused < st.paused then UnPauseAll(st') else None
  }

  /** Emptying both command queues; the cursor is left as it was. */
  function ClearCommands(st: MusicState): (r: MusicState)
    ensures r.commands == [] && r.commands2 == []
  {
    st.(commands := [], commands2 := [])
  }

  function Stop(st: MusicState): (r: Outcome)
  {
    if !st.initialized || !st.levelInitialized then Returned(LtError, st)
    else match UnPauseAll(st)
      case None => Hangs
      case Some(st1) =>
        Returned(LtOk, ClearCommands(st1).(primary := [], secondary := [], motifsPlaying := [], lastCommand := None))
  }

  /** Stop on an initialised, unpaused manager empties both queues and all three pools and
      clears the cursor. */
  lemma StopEmptiesEverything(st: MusicState)
    requires st.initialized && st.levelInitialized && st.paused == 0
    ensures Stop(st).Returned? && Stop(st).result == LtOk
    ensures var s := Stop(st).st;
            s.commands == [] && s.commands2 == [] && s.primary == [] && s.secondary == []
            && s.motifsPlaying == [] && s.lastCommand == None
    ensures Stop(st).st == st.(commands := [], commands2 := [], primary := [], secondary := [], motifsPlaying := [], lastCommand := None)
  {
  }

  /** Stop on a paused, initialised manager never returns: UnPause refuses every call. */
  lemma StopHangsWhenPaused(st: MusicState)
    requires st.initialized && st.levelInitialized && st.paused > 0
    ensures Stop(st) == Hangs
  {
  }

  // ---------------------------------------------------------------- segment end

  /** The end of a segment's playback: the first state playing that array is removed, looked for in
      the primary, then the secondary, then the motif pool; a null array is ignored. */
  function SegEnd(st: MusicState, arr: Option<InstanceArray>): (r: MusicState)
  {
    if arr.None? then st
    else match FindByArray(st.primary, arr)
      case Some(i) => CleanupSegmentState(st, PrimaryPool, i)
      case None =>
        match FindByArray(st.secondary, arr)
        case Some(i) => CleanupSegmentState(st, SecondaryPool, i)
        case None =>
          match FindByArray(st.motifsPlaying, arr)
          case Some(i) => CleanupSegmentState(st, MotifPool, i)
          case None => st
  }

  /** SegEnd removes exactly one state, the first one holding the array in the first pool (in search
      order) that has one, and changes nothing else; when no pool holds it nothing changes. */
  lemma SegEndRemovesFirstOwner(st: MusicState, arr: InstanceArray)
    ensures var r := SegEnd(st, Some(arr));
            match FindByArray(st.primary, Some(arr))
            case Some(i) => r == st.(primary := Remove(st.primary, i))
            case None =>
              match FindByArray(st.secondary, Some(arr))
              case Some(i) => r == st.(secondary := Remove(st.secondary, i))
              case None =>
                match FindByArray(st.motifsPlaying, Some(arr))
                case Some(i) => r == st.(motifsPlaying := Remove(st.motifsPlaying, i))
                case None => r == st
  {
  }

  // ---------------------------------------------------------------- enact names

  /** The name of an enact type, as the manager writes it. */
  function EnactTypeToString(e: Enact): string
  {
    match e
    case EnactInvalid => "Invalid"
    case EnactDefault => "Default"
    case EnactImmediately => "Immediate"
    case EnactNextBeat => "Beat"
    case EnactNextMeasure => "Measure"
    case EnactNextGrid => "Grid"
    case EnactNextSegment => "Segment"
    case EnactNextMarker => "Marker"
  }

  /** The enact type named by a string, compared without regard to case; unknown or null names
      give EnactInvalid. */
  function StringToEnactType(name: Option<string>): Enact
  {
    if name.None? then EnactInvalid else EnactOfLower(Lower(name.value))
  }

  /** The enact type for a lower-cased name: `stricmp` against each known name compares both sides
      in lower case. */
  function EnactOfLower(l: string): Enact
  {
    if l == Lower("Invalid") then EnactInvalid
    else if l == Lower("Default") then EnactDefault
    else if l == Lower("Immediatly") then EnactImmediately
    else if l == Lower("Immediately") then EnactImmediately
    else if l == Lower("Immediate") then EnactImmediately
    else if l == Lower("NextBeat") then EnactNextBeat
    else if l == Lower("NextMeasure") then EnactNextMeasure
    else if l == Lower("NextGrid") then EnactNextGrid
    else if l == Lower("NextSegment") then EnactNextSegment
    else if l == Lower("NextMarker") then EnactNextMarker
    else if l == Lower("Beat") then EnactNextBeat
    else if l == Lower("Measure") then EnactNextMeasure
    else if l == Lower("Grid") then EnactNextGrid
    else if l == Lower("Segment") then EnactNextSegment
    else if l == Lower("Marker") then EnactNextMarker
    else EnactInvalid
  }

  // ---------------------------------------------------------------- changing intensity

  /** The PlaySegment items queued for a playlist: one per segment that has an instance array, in order. */
  function QueueSegments(segs: seq<Segment>): (q: seq<Command>)
  {
    if |segs| == 0 then []
    else
      var rest := QueueSegments(segs[1..]);
      if segs[0].instances.Some? then [CmdPlaySegment(segs[0])] + rest else rest
  }

  /** The queued items are PlaySegment items of playable segments of the playlist, and every
      playable segment of the playlist is queued. */
  lemma {:induction false} QueuedItems(segs: seq<Segment>)
    ensures var q := QueueSegments(segs);
            (forall k :: 0 <= k < |q| ==> q[k].CmdPlaySegment? && q[k].segment.instances.Some? && q[k].segment in segs)
            && (forall s :: s in segs && s.instances.Some? ==> CmdPlaySegment(s) in q)
  {
    if |segs| > 0 {
      QueuedItems(segs[1..]);
      assert forall s :: s in segs[1..] ==> s in segs;
      assert forall s :: s in segs ==> s == segs[0] || s in segs[1..];
    }
  }

  /** What is started before the playlist is queued: the transition when it has an instance array,
      else the playlist's first segment that has one. Also gives the playlist index from which
      segments are queued and whether the first queued item was started already. */
  function StartFirst(st: MusicState, tr: Transition, segs: seq<Segment>): (r: (MusicState, nat, bool))
    ensures r.1 <= |segs|
    ensures r.2 ==> r.1 < |segs| && segs[r.1].instances.Some?
    ensures r.0.commands == st.commands && r.0.commands2 == st.commands2 && r.0.level == st.level
  {
    if tr.instances.Some? then (StartArray(st, PrimaryPool, tr.instances.value, None, true), 0, false)
    else match FirstPlayable(segs)
      case None => (st, |segs|, false)
      case Some(j) => (StartArray(st, PrimaryPool, segs[j].instances.value, Some(segs[j]), true), j, true)
  }

  /** The loop count queued after an intensity's playlist: -1 (forever) when the intensity
      follows itself, else its loop count. */
  function LoopCount(intensity: Intensity, n: int): int
  {
    if intensity.toSetAtFinish == n then -1 else intensity.numLoops
  }

  /** The item queued after the LoopToStart: a change to the follow-on intensity, if there is one. */
  function FollowOn(intensity: Intensity): seq<Command>
  {
    if intensity.toSetAtFinish > 0 then [CmdChangeIntensity(intensity.toSetAtFinish)] else []
  }

  /** Entering intensity n (the guards have passed): the transition is chosen from the previous
      intensity while one is pending, both queues are rebuilt, and the cursor is placed on the first
      item when that item's segment was started already. */
  function EnterIntensity(st: MusicState, n: int): (r: MusicState)
    requires 0 < n < |st.level.intensities| && |st.level.transitions| > 0
  {
    var tr := GetTransition(st.level, if st.prevIntensity != 0 then st.prevIntensity else st.curIntensity, n);
    var st1 := ClearCommands(st.(prevIntensity := st.curIntensity));
    var intensity := st.level.intensities[n];
    var segs := intensity.segments;
    var (st2, from, skip) := StartFirst(st1, tr, segs);
    QueueIntensity(st2, n, intensity, from, skip)
  }

  /** The primary queue of intensity n's playlist from index `from` on, with the cursor on the
      first item when it was started already. */
  function QueueIntensity(st: MusicState, n: int, intensity: Intensity, from: nat, skip: bool): (r: MusicState)
    requires from <= |intensity.segments|
  {
    st.(commands := QueueSegments(intensity.segments[from..]) + [CmdLoopToStart(LoopCount(intensity, n))] + FollowOn(intensity),
        lastCommand := if skip then Some(0) else None,
        curIntensity := n)
  }

  function ChangeIntensity(st: MusicState, n: int): (r: Outcome)
  {
    if !st.initialized || !st.levelInitialized then Returned(LtError, st)
    else if n == 0 then
      match Stop(st)
      case Returned(_, st1) => Returned(LtError, st1)
      case other => other
    else if n < 0 || n > st.level.numIntensities then Returned(LtError, st)
    else if st.curIntensity == n then Returned(LtOk, st)
    else if |st.level.transitions| == 0 || n >= |st.level.intensities| then Fault
    else Returned(LtOk, EnterIntensity(st, n))
  }

  // ---------------------------------------------------------------- the command loop

  /** The items at which a walk of the primary queue ends. */
  predicate HaltsWalk(c: Command)
  {
    c.CmdPlaySegment? || c.CmdPauseQueue? || c.CmdPlayTransition? || c.CmdChangeIntensity?
  }

  predicate HaltBefore(q: seq<Command>, k: nat)
  {
    exists j :: 0 <= j < k && j < |q| && HaltsWalk(q[j])
  }

  /** The loop passes still owed by the positive LoopToStart items. */
  function LoopBudget(q: seq<Command>): nat
  {
    if |q| == 0 then 0
    else (if q[0].CmdLoopToStart? && q[0].loops > 0 then q[0].loops else 0) + LoopBudget(q[1..])
  }

  lemma {:induction false} LoopBudgetDecrement(q: seq<Command>, k: nat)
    requires k < |q| && q[k].CmdLoopToStart? && q[k].loops > 0
    ensures LoopBudget(q[k := CmdLoopToStart(q[k].loops - 1)]) == LoopBudget(q) - 1
  {
    if k > 0 {
      LoopBudgetDecrement(q[1..], k - 1);
      assert q[k := CmdLoopToStart(q[k].loops - 1)][1..] == q[1..][k - 1 := CmdLoopToStart(q[k].loops - 1)];
    }
  }

  datatype Walk = Halted(st: MusicState, cursor: Option<nat>) | WalkHangs | WalkFault

  function WalkStatus(w: Walk): Status
  {
    match w
    case Halted(_, _) => Finished(LtOk)
    case WalkHangs => Diverged
    case WalkFault => Faulted
  }

  /** The walk of the primary queue from item `cur`. A LoopToStart with a positive count is counted
      down and sends the walk back to the head until the count reaches 0; a count of 0 is passed; a
      negative count always sends the walk back, which loops forever unless an item that ends the
      walk lies before it. `firstPass` is false once the walk has been sent back by a negative count; from
      then on no such item has been passed. */
  function Dispatch(st: MusicState, cur: nat, firstPass: bool): (r: Walk)
    requires !firstPass ==> !HaltBefore(st.commands, cur)
    decreases if firstPass then 1 else 0, LoopBudget(st.commands), if cur <= |st.commands| then |st.commands| - cur else 0
  {
    if cur >= |st.commands| then Halted(st, None)
    else match st.commands[cur]
      case CmdLoopToStart(n) =>
        if n == 0 then Dispatch(st, cur + 1, firstPass)
        else if n > 0 then
          var st1 := st.(commands := st.commands[cur := CmdLoopToStart(n - 1)]);
          LoopBudgetDecrement(st.commands, cur);
          if n - 1 == 0 then Dispatch(st1, cur + 1, firstPass) else Dispatch(st1, 0, firstPass)
        else if firstPass && HaltBefore(st.commands, cur) then Dispatch(st, 0, false)
        else WalkHangs
      case CmdChangeIntensity(n) =>
        (match ChangeIntensity(st, n)
         case Returned(res, st1) =>
           if res == LtOk then Halted(st1, st1.lastCommand)
           else if st1 == st then WalkHangs
           else WalkFault
         case Hangs => WalkHangs
         case Fault => WalkFault)
      case CmdPauseQueue => Halted(st, Some(cur))
      case CmdPlaySegment(seg) =>
        Halted(if seg.instances.Some? then StartArray(st, PrimaryPool, seg.instances.value, Some(seg), true) else st, Some(cur))
      case CmdPlayTransition(tr) =>
        var st1 := if tr.instances.Some? then StartArray(st, PrimaryPool, tr.instances.value, None, true) else st;
        Halted(st1.(commands := Remove(st1.commands, cur)), None)
      case _ => Dispatch(st, cur + 1, firstPass)
  }

  /** An item that neither loops nor halts is passed over. */
  lemma DispatchPasses(st: MusicState, cur: nat, firstPass: bool)
    requires !firstPass ==> !HaltBefore(st.commands, cur)
    requires cur < |st.commands| && !st.commands[cur].CmdLoopToStart? && !HaltsWalk(st.commands[cur])
    ensures !firstPass ==> !HaltBefore(st.commands, cur + 1)
    ensures Dispatch(st, cur, firstPass) == Dispatch(st, cur + 1, firstPass)
  {
  }

  /** A LoopToStart whose count has run out is passed over. */
  lemma DispatchLoopDone(st: MusicState, cur: nat, firstPass: bool)
    requires !firstPass ==> !HaltBefore(st.commands, cur)
    requires cur < |st.commands| && st.commands[cur] == CmdLoopToStart(0)
    ensures !firstPass ==> !HaltBefore(st.commands, cur + 1)
    ensures Dispatch(st, cur, firstPass) == Dispatch(st, cur + 1, firstPass)
  {
  }

  /** A LoopToStart with a positive count is counted down by one; the walk then goes back to the
      head of the queue, or passes on when the count has reached 0. */
  lemma DispatchLoopCountsDown(st: MusicState, cur: nat, firstPass: bool)
    requires !firstPass ==> !HaltBefore(st.commands, cur)
    requires cur < |st.commands| && st.commands[cur].CmdLoopToStart? && st.commands[cur].loops > 0
    ensures var n := st.commands[cur].loops;
            var st1 := st.(commands := st.commands[cur := CmdLoopToStart(n - 1)]);
            var next := if n == 1 then cur + 1 else 0;
            (!firstPass ==> !HaltBefore(st1.commands, next))
            && Dispatch(st, cur, firstPass) == Dispatch(st1, next, firstPass)
  {
    var n := st.commands[cur].loops;
    var st1 := st.(commands := st.commands[cur := CmdLoopToStart(n - 1)]);
    if n == 1 && !firstPass {
      assert forall j :: 0 <= j < cur + 1 && j < |st1.commands| ==> st1.commands[j] == st.commands[j] || j == cur;
    }
  }

  /** A LoopToStart with a negative count is never counted down: it sends the walk back to the head
      once, when an item that halts the walk lies before it, and otherwise the walk never ends. */
  lemma DispatchLoopForever(st: MusicState, cur: nat, firstPass: bool)
    requires !firstPass ==> !HaltBefore(st.commands, cur)
    requires cur < |st.commands| && st.commands[cur].CmdLoopToStart? && st.commands[cur].loops < 0
    ensures Dispatch(st, cur, firstPass) == if firstPass && HaltBefore(st.commands, cur) then Dispatch(st, 0, false) else WalkHangs
  {
  }

  /** Executing one item of the secondary queue: a secondary segment or motif with an instance
      array is started in its pool; other items do nothing. */
  function RunItem(st: MusicState, c: Command): (r: MusicState)
    ensures r.commands2 == st.commands2
  {
    match c
    case CmdPlaySecondarySegment(seg) =>
      if seg.instances.Some? then StartArray(st, SecondaryPool, seg.instances.value, Some(seg), true) else st
    case CmdPlayMotif(seg) =>
      if seg.instances.Some? then StartArray(st, MotifPool, seg.instances.value, Some(seg), true) else st
    case _ => st
  }

  /** Running the secondary queue: every item is executed and removed, in order. */
  function Drain(st: MusicState): (r: MusicState)
    decreases |st.commands2|
    ensures r.commands2 == []
  {
    if |st.commands2| == 0 then st
    else
      var st1 := RunItem(st, st.commands2[0]);
      Drain(st1.(commands2 := st1.commands2[1..]))
  }

  /** A segment is almost over. Notifications from secondary segments and motifs, and from any
      array other than the one of the most recent primary state, are ignored. Otherwise the primary
      queue is walked from the item after the cursor, the cursor is left where the walk halted,
      and the secondary queue is run. */
  function AlmostEnd(st: MusicState, arr: Option<InstanceArray>): (r: Outcome)
  {
    if FindByArray(st.secondary, arr).Some? || FindByArray(st.motifsPlaying, arr).Some? then Returned(LtOk, st)
    else if |st.primary| > 0 && st.primary[0].instances != arr then Returned(LtOk, st)
    else if st.lastCommand.Some? && st.lastCommand.value >= |st.commands| then Fault
    else
      var start := if st.lastCommand.Some? then st.lastCommand.value + 1 else 0;
      match Dispatch(st, start, true)
      case WalkHangs => Hangs
      case WalkFault => Fault
      case Halted(st1, cursor) => Returned(LtOk, Drain(st1.(lastCommand := cursor)))
  }

  // ---------------------------------------------------------------- secondary segments and motifs

  /** The item that plays a segment of pool p from the secondary queue. */
  function PlayItem(p: Pool, seg: Segment): Command
  {
    if p == SecondaryPool then CmdPlaySecondarySegment(seg) else CmdPlayMotif(seg)
  }

  /** Playing a found segment in pool p now, or, when it is to start with the next segment,
      putting a play item at the head of the secondary queue. */
  function PlayOrQueue(st: MusicState, p: Pool, seg: Segment, enact: Enact): (r: Outcome)
  {
    if seg.instances.None? then Returned(LtError, st)
    else
      var when := if enact == EnactDefault then seg.defaultEnact else enact;
      if when != EnactNextSegment then Returned(LtOk, StartArray(st, p, seg.instances.value, Some(seg), true))
      else Returned(LtOk, st.(commands2 := [PlayItem(p, seg)] + st.commands2))
  }

  function PlaySecondary(st: MusicState, name: Option<string>, enact: Enact): (r: Outcome)
  {
    if !st.initialized || !st.levelInitialized then Returned(LtError, st)
    else match FindSegment(st.level.segments, name)
      case None => Returned(LtError, st)
      case Some(i) => PlayOrQueue(st, SecondaryPool, st.level.segments[i], enact)
  }

  function PlayMotif(st: MusicState, name: Option<string>, enact: Enact): (r: Outcome)
  {
    if !st.initialized || !st.levelInitialized then Returned(LtError, st)
    else match FindSegment(st.level.motifs, name)
      case None => Returned(LtError, st)
      case Some(i) => PlayOrQueue(st, MotifPool, st.level.motifs[i], enact)
  }

  /** How a stop loop over one pool ends: with the pool it leaves, never, or reading a null segment. */
  datatype PoolWalk = Stopped(pool: seq<SegState>) | PoolHangs | PoolFault

  /** The manager's outcome for a stop loop over pool p. */
  function PoolOutcome(st: MusicState, p: Pool, w: PoolWalk): (r: Outcome)
    ensures w.Stopped? ==> r == Returned(LtOk, WithPool(st, p, w.pool))
  {
    match w
    case Stopped(pool) => Returned(LtOk, WithPool(st, p, pool))
    case PoolHangs => Hangs
    case PoolFault => Fault
  }

  /** Stopping every state of a pool, walking it from index k: a state without an instance array
      stops the walk from moving on, so it never ends; a state that is to play to its end is kept.
      With the default enact each state's segment decides (a state without a segment is then read
      through a null pointer). */
  function StopAll(pool: seq<SegState>, enact: Enact, k: nat): (r: PoolWalk)
    decreases |pool| - k
  {
    if k >= |pool| then Stopped(pool)
    else if pool[k].instances.None? then PoolHangs
    else if enact == EnactDefault && pool[k].segment.None? then PoolFault
    else
      var when := if enact == EnactDefault then pool[k].segment.value.defaultEnact else enact;
      if when != EnactNextSegment then StopAll(Remove(pool, k), enact, k)
      else StopAll(pool, enact, k + 1)
  }

  /** Stopping the states of a pool with this name, one at a time, each found afresh from the head;
      a found state that is not removed is found again on every pass, so the loop never ends. */
  function StopByName(pool: seq<SegState>, name: string, enact: Enact): (r: PoolWalk)
    decreases |pool|
  {
    match FindByName(pool, Some(name))
    case None => Stopped(pool)
    case Some(i) =>
      var seg := pool[i].segment.value;
      var when := if enact == EnactDefault then seg.defaultEnact else enact;
      if seg.instances.Some? && when != EnactNextSegment then StopByName(Remove(pool, i), name, enact)
      else PoolHangs
  }

  function StopPlaying(st: MusicState, p: Pool, name: Option<string>, enact: Enact): (r: Outcome)
  {
    if !st.initialized || !st.levelInitialized then Returned(LtError, st)
    else if name.None? then PoolOutcome(st, p, StopAll(PoolOf(st, p), enact, 0))
    else PoolOutcome(st, p, StopByName(PoolOf(st, p), name.value, enact))
  }

  function StopSecondary(st: MusicState, name: Option<string>, enact: Enact): (r: Outcome)
  {
    StopPlaying(st, SecondaryPool, name, enact)
  }

  function StopMotif(st: MusicState, name: Option<string>, enact: Enact): (r: Outcome)
  {
    StopPlaying(st, MotifPool, name, enact)
  }

  // ---------------------------------------------------------------- the timer loop

  /** The primary state being updated is the one `remaining` places from the pool's end: the
      operations called while updating it only add states at the head and remove a state at or
      before it (see AlmostEndOnlyPrepends). */
  function UpdateStates(st: MusicState, remaining: nat, dt: nat): (r: Outcome)
    decreases remaining
  {
    if remaining == 0 then Returned(LtOk, st)
    else if remaining > |st.primary| then Fault
    else
      var s := st.primary[|st.primary| - remaining];
      match UpdateInstances(st, remaining, s.instances, s.current, 0, dt)
      case Returned(_, st1) => UpdateStates(st1, remaining - 1, dt)
      case other => other
  }

  /** The started instances 0 .. count-1 of one state, from index i on (count is read once, before
      the loop). */
  function UpdateInstances(st: MusicState, remaining: nat, arr: Option<InstanceArray>, count: nat, i: nat, dt: nat): (r: Outcome)
    decreases if i <= count then count - i else 0
  {
    if i >= count then Returned(LtOk, st)
    else if arr.None? || i >= |arr.value.ids| then Fault
    else match UpdateInstance(st, remaining, arr.value, count, i, dt)
      case Returned(_, st1) => UpdateInstances(st1, remaining, arr, count, i + 1, dt)
      case other => other
  }

  /** One instance: its timer runs down by dt (stopping at 0); when it passes the half of its
      length the next instance is started, or the segment is reported almost over once all have
      been; when it has run out and is the last one started, the segment is reported over. */
  function UpdateInstance(st: MusicState, remaining: nat, arr: InstanceArray, count: nat, i: nat, dt: nat): (r: Outcome)
    requires i < |arr.ids|
  {
    var id := arr.ids[i];
    if id !in st.sounds then Returned(LtOk, st)
    else
      var inst := st.sounds[id];
      var after := if inst.timer > dt then inst.timer - dt else 0;
      var st1 := st.(sounds := st.sounds[id := inst.(timer := after)]);
      var half := inst.duration / 2;
      var crossed := if inst.timer > half && after <= half then HalfWay(st1, remaining, arr, count) else Returned(LtOk, st1);
      match crossed
      case Returned(_, st2) => EndCheck(st2, remaining, arr, id, i)
      case other => other
  }

  function HalfWay(st: MusicState, remaining: nat, arr: InstanceArray, count: nat): (r: Outcome)
  {
    if remaining == 0 || remaining > |st.primary| then Fault
    else
      var pos := |st.primary| - remaining;
      var s := st.primary[pos];
      var num := if s.instances.Some? then |s.instances.value.ids| else 0;
      if count < num then
        if count >= |arr.ids| then Fault
        else
          var st2 := st.(primary := st.primary[pos := s.(current := s.current + 1)]);
          Returned(LtOk, PlayInstance(st2, arr.ids[count], false).1)
      else AlmostEnd(st, Some(arr))
  }

  function EndCheck(st: MusicState, remaining: nat, arr: InstanceArray, id: nat, i: nat): (r: Outcome)
  {
    if id in st.sounds && st.sounds[id].timer == 0 then
      if remaining == 0 || remaining > |st.primary| then Fault
      else if i + 1 == st.primary[|st.primary| - remaining].current then Returned(LtOk, SegEnd(st, Some(arr)))
      else Returned(LtOk, st)
    else Returned(LtOk, st)
  }

  function Update(st: MusicState, dt: nat): (r: Outcome)
  {
    UpdateStates(st, |st.primary|, dt)
  }
}
