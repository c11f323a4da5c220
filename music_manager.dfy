/** The dynamic-music manager as an object: its fields are the manager's members, and each method
    does what the corresponding member function does, step by step, with the same loops. Every
    method is proved to leave the state, and to report the outcome, that the specification functions
    of MusicSpec give for the state before the call. A call that would never return in the program
    reports Diverged instead (at the point where the program starts repeating itself), and one that
    would read a freed or missing element reports Faulted. */
module MusicManager {
  import opened Common
  import opened MusicTypes
  import opened MusicSpec
  import MusicProps
  import MusicTick

  /** The first state of a pool playing array `arr`. */
  method FindStateByArray(pool: seq<SegState>, arr: Option<InstanceArray>) returns (r: Option<nat>)
    ensures r == FindByArray(pool, arr)
  {
    var i := 0;
    while i < |pool|
      invariant 0 <= i <= |pool|
      invariant forall j :: 0 <= j < i ==> pool[j].instances != arr
    {
      if pool[i].instances == arr {
        return Some(i);
      }
      i := i + 1;
    }
    return None;
  }

  /** The first state of a pool started from a segment called `name`. */
  method FindStateByName(pool: seq<SegState>, name: Option<string>) returns (r: Option<nat>)
    ensures r == FindByName(pool, name)
  {
    if name.None? {
      return None;
    }
    var i := 0;
    while i < |pool|
      invariant 0 <= i <= |pool|
      invariant forall j :: 0 <= j < i ==> !Named(pool[j], name.value)
    {
      if pool[i].segment.Some? && Lower(pool[i].segment.value.name) == Lower(name.value) {
        return Some(i);
      }
      i := i + 1;
    }
    return None;
  }

  /** The first segment of a list called `name`. */
  method FindSegmentNamed(segs: seq<Segment>, name: Option<string>) returns (r: Option<nat>)
    ensures r == FindSegment(segs, name)
  {
    if name.None? {
      return None;
    }
    var i := 0;
    while i < |segs|
      invariant 0 <= i <= |segs|
      invariant forall j :: 0 <= j < i ==> !NameEq(segs[j].name, name.value)
    {
      if Lower(segs[i].name) == Lower(name.value) {
        return Some(i);
      }
      i := i + 1;
    }
    return None;
  }

  class DirectMusicMgr {
    var initialized: bool
    var levelInitialized: bool
    var level: LevelData
    var commands: seq<Command>
    var commands2: seq<Command>
    var lastCommand: Option<nat>
    var primary: seq<SegState>
    var secondary: seq<SegState>
    var motifsPlaying: seq<SegState>
    var paused: nat
    var curIntensity: int
    var prevIntensity: int
    var sounds: map<nat, SoundInstance>

    /** The manager's state as a value. */
    function State(): MusicState
      reads this
    {
      MusicState(initialized, levelInitialized, level, commands, commands2, lastCommand,
                 primary, secondary, motifsPlaying, paused, curIntensity, prevIntensity, sounds)
    }

    /** A manager once constructed, initialised and given a loaded level: both flags set, nothing
        queued or playing, no cursor, not paused, intensity 0. */
    constructor(level: LevelData, sounds: map<nat, SoundInstance>)
      ensures State() == MusicState(true, true, level, [], [], None, [], [], [], 0, 0, 0, sounds)
    {
      initialized := true;
      levelInitialized := true;
      this.level := level;
      commands := [];
      commands2 := [];
      lastCommand := None;
      primary := [];
      secondary := [];
      motifsPlaying := [];
      paused := 0;
      curIntensity := 0;
      prevIntensity := 0;
      this.sounds := sounds;
    }

    method SetPool(p: Pool, states: seq<SegState>)
      modifies this
      ensures State() == WithPool(old(State()), p, states)
    {
      match p
      case PrimaryPool => primary := states;
      case SecondaryPool => secondary := states;
      case MotifPool => motifsPlaying := states;
    }

    method PlayInstance(id: nat, resetPrev: bool) returns (played: bool)
      modifies this
      ensures (played, State()) == MusicSpec.PlayInstance(old(State()), id, resetPrev)
    {
      if id in sounds && sounds[id].hasSample {
        var inst := sounds[id];
        sounds := sounds[id := inst.(timer := inst.duration)];
        if resetPrev {
          prevIntensity := 0;
        }
        return true;
      }
      return false;
    }

    method CreateSegmentState(p: Pool, arr: InstanceArray, seg: Option<Segment>)
      modifies this
      ensures State() == MusicSpec.CreateSegmentState(old(State()), p, arr, seg)
    {
      SetPool(p, [SegState(Some(arr), seg, 1)] + PoolOf(State(), p));
    }

    method StartArray(p: Pool, arr: InstanceArray, seg: Option<Segment>, resetPrev: bool)
      modifies this
      ensures State() == MusicSpec.StartArray(old(State()), p, arr, seg, resetPrev)
    {
      var played := PlayInstance(arr.ids[0], resetPrev);
      if played {
        CreateSegmentState(p, arr, seg);
      }
    }

    method CleanupSegmentState(p: Pool, i: nat)
      requires i < |PoolOf(State(), p)|
      modifies this
      ensures State() == MusicSpec.CleanupSegmentState(old(State()), p, i)
    {
      var pool := PoolOf(State(), p);
      SetPool(p, pool[..i] + pool[i + 1..]);
    }

    /** Removing every state of a pool, head first. */
    method CleanupSegmentStates(p: Pool)
      modifies this
      ensures State() == WithPool(old(State()), p, [])
    {
      while |PoolOf(State(), p)| > 0
        invariant State() == WithPool(old(State()), p, PoolOf(State(), p))
        decreases |PoolOf(State(), p)|
      {
        CleanupSegmentState(p, 0);
      }
    }

    method ClearCommands()
      modifies this
      ensures State() == MusicSpec.ClearCommands(old(State()))
    {
      while |commands| > 0
        invariant State() == old(State()).(commands := commands)
      {
        commands := commands[1..];
      }
      while |commands2| > 0
        invariant State() == old(State()).(commands := [], commands2 := commands2)
      {
        commands2 := commands2[1..];
      }
    }

    method Pause() returns (r: LtResult)
      modifies this
      ensures Returned(r, State()) == MusicSpec.Pause(old(State()))
    {
      if !initialized || !levelInitialized {
        return LtError;
      }
      paused := paused + 1;
      return LtOk;
    }

    method UnPause() returns (r: LtResult)
      modifies this
      ensures Returned(r, State()) == MusicSpec.UnPause(old(State()))
    {
      if initialized {
        return LtError;
      }
      if levelInitialized {
        return LtError;
      }
      if paused == 0 {
        return LtOverflow;
      }
      paused := paused - 1;
      return LtOk;
    }

    method Stop() returns (s: Status)
      modifies this
      ensures s == StatusOf(MusicSpec.Stop(old(State())))
      ensures MusicSpec.Stop(old(State())).Returned? ==> State() == MusicSpec.Stop(old(State())).st
    {
      if !initialized || !levelInitialized {
        return Finished(LtError);
      }
      while paused > 0
        invariant UnPauseAll(State()) == UnPauseAll(old(State()))
        decreases paused
      {
        var before := paused;
        var _ := UnPause();
        if paused >= before {
          return Diverged;
        }
      }
      ClearCommands();
      CleanupSegmentStates(PrimaryPool);
      CleanupSegmentStates(SecondaryPool);
      CleanupSegmentStates(MotifPool);
      lastCommand := None;
      return Finished(LtOk);
    }

    /** Starting the transition when it has an instance array, else the playlist's first segment
        that has one. */
    method StartFirstItem(tr: Transition, segs: seq<Segment>) returns (from: nat, skip: bool)
      modifies this
      ensures (State(), from, skip) == StartFirst(old(State()), tr, segs)
    {
      if tr.instances.Some? {
        StartArray(PrimaryPool, tr.instances.value, None, true);
        return 0, false;
      }
      var j := 0;
      while j < |segs| && segs[j].instances.None?
        invariant 0 <= j <= |segs|
        invariant forall k :: 0 <= k < j ==> segs[k].instances.None?
      {
        j := j + 1;
      }
      if j < |segs| {
        StartArray(PrimaryPool, segs[j].instances.value, Some(segs[j]), true);
        return j, true;
      }
      return |segs|, false;
    }

    /** Appending a PlaySegment item for every segment of segs[from..] that has an instance array. */
    method QueuePlaylist(segs: seq<Segment>, from: nat)
      requires from <= |segs|
      modifies this
      ensures State() == old(State()).(commands := old(commands) + QueueSegments(segs[from..]))
    {
      var queued := [];
      var k := from;
      while k < |segs|
        invariant from <= k <= |segs|
        invariant QueueSegments(segs[from..]) == queued + QueueSegments(segs[k..])
      {
        assert segs[k..][1..] == segs[k + 1..];
        if segs[k].instances.Some? {
          queued := queued + [CmdPlaySegment(segs[k])];
        }
        k := k + 1;
      }
      assert segs[k..] == [];
      commands := commands + queued;
    }

    /** Queueing intensity n's playlist on the emptied primary queue. */
    method QueueIntensity(n: int, intensity: Intensity, from: nat, skip: bool)
      requires from <= |intensity.segments| && commands == []
      modifies this
      ensures State() == MusicSpec.QueueIntensity(old(State()), n, intensity, from, skip)
    {
      QueuePlaylist(intensity.segments, from);
      lastCommand := if skip then Some(0) else None;
      commands := commands + [CmdLoopToStart(LoopCount(intensity, n))];
      if intensity.toSetAtFinish > 0 {
        commands := commands + [CmdChangeIntensity(intensity.toSetAtFinish)];
      }
      curIntensity := n;
    }

    method EnterIntensity(n: int)
      requires 0 < n < |level.intensities| && |level.transitions| > 0
      modifies this
      ensures State() == MusicSpec.EnterIntensity(old(State()), n)
    {
      var tr := GetTransition(level, if prevIntensity != 0 then prevIntensity else curIntensity, n);
      prevIntensity := curIntensity;
      ClearCommands();
      var intensity := level.intensities[n];
      var from, skip := StartFirstItem(tr, intensity.segments);
      QueueIntensity(n, intensity, from, skip);
    }

    method ChangeIntensity(n: int) returns (s: Status)
      modifies this
      ensures s == StatusOf(MusicSpec.ChangeIntensity(old(State()), n))
      ensures MusicSpec.ChangeIntensity(old(State()), n).Returned? ==> State() == MusicSpec.ChangeIntensity(old(State()), n).st
    {
      if !initialized || !levelInitialized {
        return Finished(LtError);
      }
      if n == 0 {
        s := Stop();
        if s.Finished? {
          s := Finished(LtError);
        }
        return;
      }
      if n < 0 || n > level.numIntensities {
        return Finished(LtError);
      }
      if curIntensity == n {
        return Finished(LtOk);
      }
      if |level.transitions| == 0 || n >= |level.intensities| {
        return Faulted;
      }
      EnterIntensity(n);
      return Finished(LtOk);
    }

    /** Executing an item that ends the walk. */
    method RunHaltingCommand(cur: nat, ghost firstPass: bool) returns (s: Status, cursor: Option<nat>)
      requires !firstPass ==> !HaltBefore(commands, cur)
      requires cur < |commands| && HaltsWalk(commands[cur])
      modifies this
      ensures var w := Dispatch(old(State()), cur, firstPass);
              s == WalkStatus(w) && (w.Halted? ==> State() == w.st && cursor == w.cursor)
    {
      match commands[cur]
      case CmdChangeIntensity(n) =>
        var before := State();
        s := ChangeIntensity(n);
        if s == Finished(LtOk) {
          return s, lastCommand;
        }
        if s.Finished? {
          // A refused change that changed nothing is executed again on every later walk.
          if State() == before {
            return Diverged, None;
          }
          return Faulted, None;
        }
        return s, None;
      case CmdPauseQueue =>
        return Finished(LtOk), Some(cur);
      case CmdPlaySegment(seg) =>
        if seg.instances.Some? {
          StartArray(PrimaryPool, seg.instances.value, Some(seg), true);
        }
        return Finished(LtOk), Some(cur);
      case CmdPlayTransition(tr) =>
        if tr.instances.Some? {
          StartArray(PrimaryPool, tr.instances.value, None, true);
        }
        commands := commands[..cur] + commands[cur + 1..];
        return Finished(LtOk), None;
    }

    /** The walk of the primary queue from item `start`; on a halt, the cursor it leaves. */
    method RunCommands(start: nat) returns (s: Status, cursor: Option<nat>)
      modifies this
      ensures var w := Dispatch(old(State()), start, true);
              s == WalkStatus(w) && (w.Halted? ==> State() == w.st && cursor == w.cursor)
    {
      var cur: nat := start;
      var firstPass := true;
      ghost var walk := Dispatch(State(), start, true);
      while true
        invariant !firstPass ==> !HaltBefore(commands, cur)
        invariant Dispatch(State(), cur, firstPass) == walk
        decreases if firstPass then 1 else 0, LoopBudget(commands), if cur <= |commands| then |commands| - cur else 0
      {
        if cur >= |commands| {
          return Finished(LtOk), None;
        }
        var c := commands[cur];
        if c == CmdLoopToStart(0) {
          DispatchLoopDone(State(), cur, firstPass);
          cur := cur + 1;
        } else if c.CmdLoopToStart? && c.loops > 0 {
          DispatchLoopCountsDown(State(), cur, firstPass);
          LoopBudgetDecrement(commands, cur);
          commands := commands[cur := CmdLoopToStart(c.loops - 1)];
          cur := if c.loops == 1 then cur + 1 else 0;
        } else if c.CmdLoopToStart? {
          DispatchLoopForever(State(), cur, firstPass);
          if firstPass && HaltBefore(commands, cur) {
            cur, firstPass := 0, false;
          } else {
            return Diverged, None;
          }
        } else if HaltsWalk(c) {
          s, cursor := RunHaltingCommand(cur, firstPass);
          return;
        } else {
          DispatchPasses(State(), cur, firstPass);
          cur := cur + 1;
        }
      }
    }

    /** Executing one item of the secondary queue. */
    method RunItem(c: Command)
      modifies this
      ensures State() == MusicSpec.RunItem(old(State()), c)
    {
      match c
      case CmdPlaySecondarySegment(seg) =>
        if seg.instances.Some? {
          StartArray(SecondaryPool, seg.instances.value, Some(seg), true);
        }
      case CmdPlayMotif(seg) =>
        if seg.instances.Some? {
          StartArray(MotifPool, seg.instances.value, Some(seg), true);
        }
      case _ =>
    }

    /** Running the secondary queue. */
    method RunSecondaryCommands()
      modifies this
      ensures State() == Drain(old(State()))
    {
      while |commands2| > 0
        invariant Drain(State()) == Drain(old(State()))
        decreases |commands2|
      {
        RunItem(commands2[0]);
        commands2 := commands2[1..];
      }
    }

    method SegAlmostEnd(arr: Option<InstanceArray>) returns (s: Status)
      modifies this
      ensures s == StatusOf(AlmostEnd(old(State()), arr))
      ensures AlmostEnd(old(State()), arr).Returned? ==> State() == AlmostEnd(old(State()), arr).st
    {
      var inSecondary := FindStateByArray(secondary, arr);
      var inMotifs := FindStateByArray(motifsPlaying, arr);
      if inSecondary.Some? || inMotifs.Some? {
        return Finished(LtOk);
      }
      if |primary| > 0 && primary[0].instances != arr {
        return Finished(LtOk);
      }
      if lastCommand.Some? && lastCommand.value >= |commands| {
        return Faulted;
      }
      var start := if lastCommand.Some? then lastCommand.value + 1 else 0;
      var cursor;
      s, cursor := RunCommands(start);
      if s != Finished(LtOk) {
        return;
      }
      lastCommand := cursor;
      RunSecondaryCommands();
    }

    method SegEnd(arr: Option<InstanceArray>)
      modifies this
      ensures State() == MusicSpec.SegEnd(old(State()), arr)
    {
      if arr.None? {
        return;
      }
      var i := FindStateByArray(primary, arr);
      if i.Some? {
        CleanupSegmentState(PrimaryPool, i.value);
        return;
      }
      i := FindStateByArray(secondary, arr);
      if i.Some? {
        CleanupSegmentState(SecondaryPool, i.value);
        return;
      }
      i := FindStateByArray(motifsPlaying, arr);
      if i.Some? {
        CleanupSegmentState(MotifPool, i.value);
      }
    }

    method PlayOrQueue(p: Pool, seg: Segment, enact: Enact) returns (r: LtResult)
      modifies this
      ensures Returned(r, State()) == MusicSpec.PlayOrQueue(old(State()), p, seg, enact)
      ensures seg.instances.None? <==> r == LtError
      ensures r == LtError ==> State() == old(State())
      ensures seg.instances.Some? && MusicProps.PlayEnact(seg, enact) == EnactNextSegment
              ==> State() == old(State()).(commands2 := [PlayItem(p, seg)] + old(commands2))
      ensures seg.instances.Some? && MusicProps.PlayEnact(seg, enact) != EnactNextSegment
              ==> commands == old(commands) && commands2 == old(commands2) && lastCommand == old(lastCommand)
                  && sounds.Keys == old(sounds.Keys)
                  && (p != PrimaryPool ==> primary == old(primary))
                  && (p != SecondaryPool ==> secondary == old(secondary))
                  && (p != MotifPool ==> motifsPlaying == old(motifsPlaying))
                  && MusicProps.Extends(PoolOf(State(), p), PoolOf(old(State()), p))
    {
      if seg.instances.Some? {
        if MusicProps.PlayEnact(seg, enact) == EnactNextSegment {
          MusicProps.PlayOrQueueDefers(State(), p, seg, enact);
        } else {
          MusicProps.PlayOrQueueStarts(State(), p, seg, enact);
        }
      }
      if seg.instances.None? {
        return LtError;
      }
      var when := if enact == EnactDefault then seg.defaultEnact else enact;
      if when != EnactNextSegment {
        StartArray(p, seg.instances.value, Some(seg), true);
      } else {
        commands2 := [PlayItem(p, seg)] + commands2;
      }
      return LtOk;
    }

    method PlaySecondary(name: Option<string>, enact: Enact) returns (r: LtResult)
      modifies this
      ensures Returned(r, State()) == MusicSpec.PlaySecondary(old(State()), name, enact)
      ensures r == LtOk || r == LtError
      ensures var i := FindSegment(old(level.segments), name);
              r == LtError <==> !old(initialized) || !old(levelInitialized) || i.None? || old(level.segments)[i.value].instances.None?
      ensures r == LtError ==> State() == old(State())
    {
      MusicProps.PlaySecondaryResult(State(), name, enact);
      if !initialized || !levelInitialized {
        return LtError;
      }
      var i := FindSegmentNamed(level.segments, name);
      if i.None? {
        return LtError;
      }
      r := PlayOrQueue(SecondaryPool, level.segments[i.value], enact);
    }

    method PlayMotif(name: Option<string>, enact: Enact) returns (r: LtResult)
      modifies this
      ensures Returned(r, State()) == MusicSpec.PlayMotif(old(State()), name, enact)
      ensures r == LtOk || r == LtError
      ensures var i := FindSegment(old(level.motifs), name);
              r == LtError <==> !old(initialized) || !old(levelInitialized) || i.None? || old(level.motifs)[i.value].instances.None?
      ensures r == LtError ==> State() == old(State())
    {
      MusicProps.PlayMotifResult(State(), name, enact);
      if !initialized || !levelInitialized {
        return LtError;
      }
      var i := FindSegmentNamed(level.motifs, name);
      if i.None? {
        return LtError;
      }
      r := PlayOrQueue(MotifPool, level.motifs[i.value], enact);
    }

    /** One pass of the stop-all loop at index k: a state without an instance array or, with the
        default enact, without a segment ends the walk; otherwise the state is removed or passed. */
    method StopAllStep(p: Pool, enact: Enact, k: nat) returns (s: Option<Status>, next: nat)
      requires k < |PoolOf(State(), p)|
      modifies this
      ensures s == Some(Diverged) ==> StopAll(PoolOf(old(State()), p), enact, k) == PoolHangs
      ensures s == Some(Faulted) ==> StopAll(PoolOf(old(State()), p), enact, k) == PoolFault
      ensures s.Some? ==> s.value.Diverged? || s.value.Faulted?
      ensures s.None? ==> State() == WithPool(old(State()), p, PoolOf(State(), p))
                          && StopAll(PoolOf(State(), p), enact, next) == StopAll(PoolOf(old(State()), p), enact, k)
                          && |PoolOf(State(), p)| - next < |PoolOf(old(State()), p)| - k
    {
      var state := PoolOf(State(), p)[k];
      if state.instances.None? {
        // The walk stays on this state for ever.
        return Some(Diverged), k;
      }
      if enact == EnactDefault && state.segment.None? {
        return Some(Faulted), k;
      }
      var when := if enact == EnactDefault then state.segment.value.defaultEnact else enact;
      if when != EnactNextSegment {
        CleanupSegmentState(p, k);
        return None, k;
      }
      return None, k + 1;
    }

    /** Stopping every state of a pool. */
    method StopAllStates(p: Pool, enact: Enact) returns (s: Status)
      modifies this
      ensures var w := StopAll(PoolOf(old(State()), p), enact, 0);
              s == StatusOf(PoolOutcome(old(State()), p, w)) && (w.Stopped? ==> State() == WithPool(old(State()), p, w.pool))
    {
      ghost var w := StopAll(PoolOf(State(), p), enact, 0);
      var k: nat := 0;
      while k < |PoolOf(State(), p)|
        invariant State() == WithPool(old(State()), p, PoolOf(State(), p))
        invariant StopAll(PoolOf(State(), p), enact, k) == w
        decreases |PoolOf(State(), p)| - k
      {
        var done;
        done, k := StopAllStep(p, enact, k);
        if done.Some? {
          return done.value;
        }
      }
      return Finished(LtOk);
    }

    /** Stopping the states of a pool started from segments called `name`. */
    method StopNamedStates(p: Pool, name: string, enact: Enact) returns (s: Status)
      modifies this
      ensures var w := StopByName(PoolOf(old(State()), p), name, enact);
              s == StatusOf(PoolOutcome(old(State()), p, w)) && (w.Stopped? ==> State() == WithPool(old(State()), p, w.pool))
    {
      ghost var w := StopByName(PoolOf(State(), p), name, enact);
      while true
        invariant State() == WithPool(old(State()), p, PoolOf(State(), p))
        invariant StopByName(PoolOf(State(), p), name, enact) == w
        decreases |PoolOf(State(), p)|
      {
        var i := FindStateByName(PoolOf(State(), p), Some(name));
        if i.None? {
          return Finished(LtOk);
        }
        var seg := PoolOf(State(), p)[i.value].segment.value;
        var when := if enact == EnactDefault then seg.defaultEnact else enact;
        if seg.instances.Some? && when != EnactNextSegment {
          CleanupSegmentState(p, i.value);
        } else {
          // The same state is found again on every pass.
          return Diverged;
        }
      }
    }

    method StopPlaying(p: Pool, name: Option<string>, enact: Enact) returns (s: Status)
      modifies this
      ensures s == StatusOf(MusicSpec.StopPlaying(old(State()), p, name, enact))
      ensures MusicSpec.StopPlaying(old(State()), p, name, enact).Returned? ==> State() == MusicSpec.StopPlaying(old(State()), p, name, enact).st
    {
      if !initialized || !levelInitialized {
        return Finished(LtError);
      }
      if name.None? {
        s := StopAllStates(p, enact);
      } else {
        s := StopNamedStates(p, name.value, enact);
      }
    }

    method StopSecondary(name: Option<string>, enact: Enact) returns (s: Status)
      modifies this
      ensures s == StatusOf(MusicSpec.StopSecondary(old(State()), name, enact))
      ensures MusicSpec.StopSecondary(old(State()), name, enact).Returned? ==> State() == MusicSpec.StopSecondary(old(State()), name, enact).st
    {
      s := StopPlaying(SecondaryPool, name, enact);
    }

    method StopMotif(name: Option<string>, enact: Enact) returns (s: Status)
      modifies this
      ensures s == StatusOf(MusicSpec.StopMotif(old(State()), name, enact))
      ensures MusicSpec.StopMotif(old(State()), name, enact).Returned? ==> State() == MusicSpec.StopMotif(old(State()), name, enact).st
    {
      s := StopPlaying(MotifPool, name, enact);
    }

    method HalfWay(remaining: nat, arr: InstanceArray, count: nat) returns (s: Status)
      modifies this
      ensures s == StatusOf(MusicSpec.HalfWay(old(State()), remaining, arr, count))
      ensures MusicSpec.HalfWay(old(State()), remaining, arr, count).Returned? ==> State() == MusicSpec.HalfWay(old(State()), remaining, arr, count).st
    {
      if remaining == 0 || remaining > |primary| {
        return Faulted;
      }
      var pos := |primary| - remaining;
      var state := primary[pos];
      var num := if state.instances.Some? then |state.instances.value.ids| else 0;
      if count < num {
        if count >= |arr.ids| {
          return Faulted;
        }
        primary := primary[pos := state.(current := state.current + 1)];
        var _ := PlayInstance(arr.ids[count], false);
        return Finished(LtOk);
      }
      s := SegAlmostEnd(Some(arr));
    }

    method EndCheck(remaining: nat, arr: InstanceArray, id: nat, i: nat) returns (s: Status)
      modifies this
      ensures s == StatusOf(MusicSpec.EndCheck(old(State()), remaining, arr, id, i))
      ensures MusicSpec.EndCheck(old(State()), remaining, arr, id, i).Returned? ==> State() == MusicSpec.EndCheck(old(State()), remaining, arr, id, i).st
    {
      if id in sounds && sounds[id].timer == 0 {
        if remaining == 0 || remaining > |primary| {
          return Faulted;
        }
        if i + 1 == primary[|primary| - remaining].current {
          SegEnd(Some(arr));
        }
      }
      return Finished(LtOk);
    }

    method UpdateInstance(remaining: nat, arr: InstanceArray, count: nat, i: nat, dt: nat) returns (s: Status)
      requires i < |arr.ids|
      modifies this
      ensures s == StatusOf(MusicSpec.UpdateInstance(old(State()), remaining, arr, count, i, dt))
      ensures MusicSpec.UpdateInstance(old(State()), remaining, arr, count, i, dt).Returned? ==> State() == MusicSpec.UpdateInstance(old(State()), remaining, arr, count, i, dt).st
    {
      var id := arr.ids[i];
      if id !in sounds {
        return Finished(LtOk);
      }
      var inst := sounds[id];
      var after := if inst.timer > dt then inst.timer - dt else 0;
      sounds := sounds[id := inst.(timer := after)];
      var half := inst.duration / 2;
      if inst.timer > half && after <= half {
        s := HalfWay(remaining, arr, count);
        if s != Finished(LtOk) {
          return;
        }
      }
      s := EndCheck(remaining, arr, id, i);
    }

    /** Advancing every primary state's started instances by dt milliseconds. */
    method Update(dt: nat) returns (s: Status)
      modifies this
      ensures s == StatusOf(MusicSpec.Update(old(State()), dt))
      ensures MusicSpec.Update(old(State()), dt).Returned? ==> State() == MusicSpec.Update(old(State()), dt).st
      ensures MusicTick.PlainTick(old(sounds), old(primary), dt)
              ==> s == Finished(LtOk)
                  && sounds == MusicTick.TickSounds(old(sounds), MusicTick.StartedSet(old(primary)), MusicTick.Starts(old(sounds), old(primary), dt), dt)
                  && primary == MusicTick.TickPool(old(sounds), old(primary), dt)
                  && State() == old(State()).(sounds := sounds, primary := primary)
    {
      if MusicTick.PlainTick(sounds, primary, dt) {
        MusicTick.UpdatePlainTick(State(), dt);
      }
      var remaining: nat := |primary|;
      while remaining > 0
        invariant UpdateStates(State(), remaining, dt) == MusicSpec.Update(old(State()), dt)
        decreases remaining
      {
        if remaining > |primary| {
          return Faulted;
        }
        var state := primary[|primary| - remaining];
        var count := state.current;
        var arr := state.instances;
        ghost var outer := State();
        var i := 0;
        while i < count
          invariant 0 <= i <= count
          invariant UpdateInstances(State(), remaining, arr, count, i, dt) == UpdateInstances(outer, remaining, arr, count, 0, dt)
          decreases count - i
        {
          if arr.None? || i >= |arr.value.ids| {
            return Faulted;
          }
          s := UpdateInstance(remaining, arr.value, count, i, dt);
          if s != Finished(LtOk) {
            return;
          }
          i := i + 1;
        }
        remaining := remaining - 1;
      }
      return Finished(LtOk);
    }
  }
}
