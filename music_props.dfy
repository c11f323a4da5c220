/** Properties of the sequencer specification: the guards and the queue ChangeIntensity builds,
    how the walk treats loop items, what an almost-end notification does to the queues and pools,
    when the stop loops end, the enact names, and what one timer tick does. */
module MusicProps {
  import opened Common
  import opened MusicTypes
  import opened MusicSpec

  // ---------------------------------------------------------------- pools that only grow at the head

  /** Pool `a` is pool `b` with states added at its head. */
  predicate Extends(a: seq<SegState>, b: seq<SegState>)
  {
    |a| >= |b| && a[|a| - |b|..] == b
  }

  lemma ExtendsRefl(a: seq<SegState>)
    ensures Extends(a, a)
  {
    assert a[0..] == a;
  }

  lemma ExtendsTrans(a: seq<SegState>, b: seq<SegState>, c: seq<SegState>)
    requires Extends(a, b) && Extends(b, c)
    ensures Extends(a, c)
  {
    assert a[|a| - |c|..] == a[|a| - |b|..][|b| - |c|..];
  }

  /** Extending a pool at its head keeps every state at the same distance from the pool's end; the
      timer loop relies on this to reach, after a call, the state it was updating. */
  lemma ExtendsKeepsPosition(a: seq<SegState>, b: seq<SegState>, remaining: nat)
    requires Extends(a, b) && 0 < remaining <= |b|
    ensures a[|a| - remaining] == b[|b| - remaining]
  {
    assert a[|a| - remaining] == a[|a| - |b|..][|b| - remaining];
  }

  /** Starting an array only ever adds a state at the head of a pool. */
  lemma StartArrayExtends(st: MusicState, p: Pool, arr: InstanceArray, seg: Option<Segment>, resetPrev: bool)
    ensures var r := StartArray(st, p, arr, seg, resetPrev);
            Extends(r.primary, st.primary) && Extends(r.secondary, st.secondary)
            && Extends(r.motifsPlaying, st.motifsPlaying)
            && (p != PrimaryPool ==> r.primary == st.primary)
            && (p != SecondaryPool ==> r.secondary == st.secondary)
            && (p != MotifPool ==> r.motifsPlaying == st.motifsPlaying)
  {
    var r := StartArray(st, p, arr, seg, resetPrev);
    ExtendsRefl(st.primary);
    ExtendsRefl(st.secondary);
    ExtendsRefl(st.motifsPlaying);
    assert ([SegState(Some(arr), seg, 1)] + PoolOf(st, p))[1..] == PoolOf(st, p);
  }

  /** A successful ChangeIntensity adds at most a state at the head of the primary pool. */
  lemma ChangeIntensityExtends(st: MusicState, n: int)
    requires ChangeIntensity(st, n).Returned? && ChangeIntensity(st, n).result == LtOk
    ensures Extends(ChangeIntensity(st, n).st.primary, st.primary)
  {
    ExtendsRefl(st.primary);
    if ChangeIntensity(st, n).st != st {
      var tr := GetTransition(st.level, if st.prevIntensity != 0 then st.prevIntensity else st.curIntensity, n);
      var st1 := ClearCommands(st.(prevIntensity := st.curIntensity));
      var segs := st.level.intensities[n].segments;
      if tr.instances.Some? {
        StartArrayExtends(st1, PrimaryPool, tr.instances.value, None, true);
      } else if FirstPlayable(segs).Some? {
        var j := FirstPlayable(segs).value;
        StartArrayExtends(st1, PrimaryPool, segs[j].instances.value, Some(segs[j]), true);
      }
    }
  }

  /** A walk of the primary queue that halts has only added states at the head of the primary pool. */
  lemma {:induction false} DispatchExtends(st: MusicState, cur: nat, firstPass: bool)
    requires !firstPass ==> !HaltBefore(st.commands, cur)
    ensures Dispatch(st, cur, firstPass).Halted? ==> Extends(Dispatch(st, cur, firstPass).st.primary, st.primary)
    decreases if firstPass then 1 else 0, LoopBudget(st.commands), if cur <= |st.commands| then |st.commands| - cur else 0
  {
    if cur >= |st.commands| {
      ExtendsRefl(st.primary);
    } else {
      var c := st.commands[cur];
      if c == CmdLoopToStart(0) {
        DispatchLoopDone(st, cur, firstPass);
        DispatchExtends(st, cur + 1, firstPass);
      } else if c.CmdLoopToStart? && c.loops > 0 {
        DispatchLoopCountsDown(st, cur, firstPass);
        LoopBudgetDecrement(st.commands, cur);
        var st1 := st.(commands := st.commands[cur := CmdLoopToStart(c.loops - 1)]);
        DispatchExtends(st1, if c.loops == 1 then cur + 1 else 0, firstPass);
      } else if c.CmdLoopToStart? {
        DispatchLoopForever(st, cur, firstPass);
        if firstPass && HaltBefore(st.commands, cur) {
          DispatchExtends(st, 0, false);
        }
      } else if c.CmdChangeIntensity? {
        if ChangeIntensity(st, c.intensity).Returned? && ChangeIntensity(st, c.intensity).result == LtOk {
          ChangeIntensityExtends(st, c.intensity);
        }
      } else if c.CmdPlaySegment? {
        ExtendsRefl(st.primary);
        if c.segment.instances.Some? {
          StartArrayExtends(st, PrimaryPool, c.segment.instances.value, Some(c.segment), true);
        }
      } else if c.CmdPlayTransition? {
        ExtendsRefl(st.primary);
        if c.transition.instances.Some? {
          StartArrayExtends(st, PrimaryPool, c.transition.instances.value, None, true);
        }
      } else if c.CmdPauseQueue? {
        ExtendsRefl(st.primary);
      } else {
        DispatchPasses(st, cur, firstPass);
        DispatchExtends(st, cur + 1, firstPass);
      }
    }
  }

  /** Executing a secondary-queue item only adds a state at the head of its pool. */
  lemma RunItemExtends(st: MusicState, c: Command)
    ensures var r := RunItem(st, c);
            r.primary == st.primary && r.commands == st.commands && r.lastCommand == st.lastCommand
            && Extends(r.secondary, st.secondary) && Extends(r.motifsPlaying, st.motifsPlaying)
  {
    if c.CmdPlaySecondarySegment? && c.segment.instances.Some? {
      assert RunItem(st, c) == StartArray(st, SecondaryPool, c.segment.instances.value, Some(c.segment), true);
      StartArrayExtends(st, SecondaryPool, c.segment.instances.value, Some(c.segment), true);
    } else if c.CmdPlayMotif? && c.segment.instances.Some? {
      assert RunItem(st, c) == StartArray(st, MotifPool, c.segment.instances.value, Some(c.segment), true);
      StartArrayExtends(st, MotifPool, c.segment.instances.value, Some(c.segment), true);
    } else {
      assert RunItem(st, c) == st;
      ExtendsRefl(st.secondary);
      ExtendsRefl(st.motifsPlaying);
    }
  }

  /** Running the secondary queue leaves the primary queue, the cursor and the primary pool as they
      were, and only adds states at the head of the other two pools. */
  lemma {:induction false} DrainKeepsPrimary(st: MusicState)
    ensures var r := Drain(st);
            r.primary == st.primary && r.commands == st.commands && r.lastCommand == st.lastCommand
            && Extends(r.secondary, st.secondary) && Extends(r.motifsPlaying, st.motifsPlaying)
    decreases |st.commands2|
  {
    if |st.commands2| == 0 {
      ExtendsRefl(st.secondary);
      ExtendsRefl(st.motifsPlaying);
    } else {
      var st1 := RunItem(st, st.commands2[0]);
      var st2 := st1.(commands2 := st1.commands2[1..]);
      RunItemExtends(st, st.commands2[0]);
      DrainKeepsPrimary(st2);
      ExtendsTrans(Drain(st2).secondary, st2.secondary, st.secondary);
      ExtendsTrans(Drain(st2).motifsPlaying, st2.motifsPlaying, st.motifsPlaying);
    }
  }

  /** An almost-end notification that returns has only added states at the head of the primary
      pool: the state the timer loop is updating stays at its distance from the pool's end. */
  lemma AlmostEndOnlyPrepends(st: MusicState, arr: Option<InstanceArray>)
    requires AlmostEnd(st, arr).Returned?
    ensures Extends(AlmostEnd(st, arr).st.primary, st.primary)
  {
    ExtendsRefl(st.primary);
    if !(FindByArray(st.secondary, arr).Some? || FindByArray(st.motifsPlaying, arr).Some?)
       && !(|st.primary| > 0 && st.primary[0].instances != arr) {
      var start := if st.lastCommand.Some? then st.lastCommand.value + 1 else 0;
      DispatchExtends(st, start, true);
      var w := Dispatch(st, start, true);
      DrainKeepsPrimary(w.st.(lastCommand := w.cursor));
    }
  }

  // ---------------------------------------------------------------- changing intensity

  /** A change to intensity n that passes every guard. */
  predicate Enterable(st: MusicState, n: int)
  {
    st.initialized && st.levelInitialized && 0 < n <= st.level.numIntensities && n != st.curIntensity
    && |st.level.transitions| > 0 && n < |st.level.intensities|
  }

  /** ChangeIntensity's guards, in order: an unready manager refuses; intensity 0 stops the music
      (and never returns while paused) and reports an error; an intensity out of range is refused
      with nothing changed; the current intensity is accepted with nothing changed; any other
      intensity is entered. */
  lemma ChangeIntensityGuards(st: MusicState, n: int)
    ensures !(st.initialized && st.levelInitialized) ==> ChangeIntensity(st, n) == Returned(LtError, st)
    ensures st.initialized && st.levelInitialized && n == 0 && st.paused == 0 ==>
              ChangeIntensity(st, n) == Returned(LtError, st.(commands := [], commands2 := [], primary := [], secondary := [],
                                                             motifsPlaying := [], lastCommand := None))
    ensures st.initialized && st.levelInitialized && n == 0 && st.paused > 0 ==> ChangeIntensity(st, n) == Hangs
    ensures st.initialized && st.levelInitialized && n != 0 && (n < 0 || n > st.level.numIntensities) ==>
              ChangeIntensity(st, n) == Returned(LtError, st)
    ensures st.initialized && st.levelInitialized && 0 < n <= st.level.numIntensities && n == st.curIntensity ==>
              ChangeIntensity(st, n) == Returned(LtOk, st)
    ensures Enterable(st, n) ==> ChangeIntensity(st, n) == Returned(LtOk, EnterIntensity(st, n))
  {
    if st.initialized && st.levelInitialized && n == 0 {
      if st.paused == 0 {
        StopEmptiesEverything(st);
      } else {
        StopHangsWhenPaused(st);
      }
    }
  }

  /** The primary queue built for intensity n: PlaySegment items for the segments of its playlist
      that have instance arrays, in playlist order from the segment started first (from the head
      when a transition is started), then a LoopToStart holding -1 when the intensity follows itself and its
      loop count otherwise, then a ChangeIntensity to the follow-on intensity exactly when there is
      one. The secondary queue is empty and n is the current intensity. */
  lemma EnterIntensityQueue(st: MusicState, n: int)
    requires Enterable(st, n)
    ensures var r := EnterIntensity(st, n);
            var intensity := st.level.intensities[n];
            var q := r.commands;
            var k := |q| - (if intensity.toSetAtFinish > 0 then 2 else 1);
            r.commands2 == [] && r.curIntensity == n && 0 <= k
            && (forall j :: 0 <= j < k ==> q[j].CmdPlaySegment? && q[j].segment.instances.Some? && q[j].segment in intensity.segments)
            && q[k] == CmdLoopToStart(if intensity.toSetAtFinish == n then -1 else intensity.numLoops)
            && (intensity.toSetAtFinish > 0 ==> q[k + 1] == CmdChangeIntensity(intensity.toSetAtFinish))
    ensures var tr := GetTransition(st.level, if st.prevIntensity != 0 then st.prevIntensity else st.curIntensity, n);
            var intensity := st.level.intensities[n];
            var segs := intensity.segments;
            var from := if tr.instances.Some? then 0 else match FirstPlayable(segs) case Some(j) => j case None => |segs|;
            var q := EnterIntensity(st, n).commands;
            from <= |segs| && |QueueSegments(segs[from..])| <= |q|
            && q[..|QueueSegments(segs[from..])|] == QueueSegments(segs[from..])
  {
    var tr := GetTransition(st.level, if st.prevIntensity != 0 then st.prevIntensity else st.curIntensity, n);
    var st1 := ClearCommands(st.(prevIntensity := st.curIntensity));
    var intensity := st.level.intensities[n];
    var segs := intensity.segments;
    var (st2, from, skip) := StartFirst(st1, tr, segs);
    var queued := QueueSegments(segs[from..]);
    QueuedItems(segs[from..]);
    assert forall s :: s in segs[from..] ==> s in segs;
    var q := EnterIntensity(st, n).commands;
    assert q == queued + [CmdLoopToStart(LoopCount(intensity, n))] + FollowOn(intensity);
    assert forall j :: 0 <= j < |queued| ==> q[j] == queued[j];
    assert q[..|queued|] == queued;
  }

  /** Whether starting an array succeeds: its first instance has a sample. */
  predicate Playable(st: MusicState, arr: InstanceArray)
  {
    arr.ids[0] in st.sounds && st.sounds[arr.ids[0]].hasSample
  }

  /** What is started on entering an intensity. With a transition that has an instance array, the
      transition is started and the whole playlist is queued behind a null cursor. Without one, the
      playlist's first segment that has an instance array is started and is also the first item
      queued, with the cursor on it so that the walk passes over it; when there is no such segment
      nothing is started and the cursor is null. */
  lemma EnterIntensityStartsFirst(st: MusicState, n: int)
    requires Enterable(st, n)
    ensures var tr := GetTransition(st.level, if st.prevIntensity != 0 then st.prevIntensity else st.curIntensity, n);
            var segs := st.level.intensities[n].segments;
            var r := EnterIntensity(st, n);
            if tr.instances.Some? then
              r.lastCommand == None
              && (forall s :: s in segs && s.instances.Some? ==> CmdPlaySegment(s) in r.commands)
              && r.primary == (if Playable(st, tr.instances.value) then [SegState(tr.instances, None, 1)] else []) + st.primary
            else
              match FirstPlayable(segs)
              case Some(j) =>
                r.lastCommand == Some(0) && r.commands[0] == CmdPlaySegment(segs[j])
                && r.primary == (if Playable(st, segs[j].instances.value) then [SegState(segs[j].instances, Some(segs[j]), 1)] else []) + st.primary
              case None =>
                r.lastCommand == None && r.primary == st.primary
                && r.commands == [CmdLoopToStart(LoopCount(st.level.intensities[n], n))] + FollowOn(st.level.intensities[n])
  {
    var tr := GetTransition(st.level, if st.prevIntensity != 0 then st.prevIntensity else st.curIntensity, n);
    var segs := st.level.intensities[n].segments;
    if tr.instances.Some? {
      QueuedItems(segs);
      assert segs[0..] == segs;
    } else if FirstPlayable(segs).Some? {
      var j := FirstPlayable(segs).value;
      assert segs[j..][0] == segs[j];
    } else {
      assert segs[|segs|..] == [];
    }
  }

  // ---------------------------------------------------------------- the walk

  /** A LoopToStart that still loops (a negative count, or a positive count above 1) sends the walk
      back to the head: when the head is a playable segment the walk halts there, the segment is
      started again and the cursor rests on the head. A negative count is left as it was, a
      positive one is counted down. */
  lemma LoopReplaysFromHead(st: MusicState, cur: nat)
    requires cur < |st.commands| && st.commands[cur].CmdLoopToStart?
    requires st.commands[cur].loops < 0 || st.commands[cur].loops > 1
    requires st.commands[0].CmdPlaySegment? && st.commands[0].segment.instances.Some?
    ensures var n := st.commands[cur].loops;
            var seg := st.commands[0].segment;
            var st1 := if n < 0 then st else st.(commands := st.commands[cur := CmdLoopToStart(n - 1)]);
            Dispatch(st, cur, true) == Halted(StartArray(st1, PrimaryPool, seg.instances.value, Some(seg), true), Some(0))
  {
    if st.commands[cur].loops < 0 {
      assert HaltsWalk(st.commands[0]);
      DispatchLoopForever(st, cur, true);
    } else {
      DispatchLoopCountsDown(st, cur, true);
    }
  }

  // ---------------------------------------------------------------- almost-end notifications

  /** A notification about a secondary segment or motif, or about an array other than the one of
      the most recent primary state, changes nothing. */
  lemma AlmostEndIgnored(st: MusicState, arr: Option<InstanceArray>)
    requires FindByArray(st.secondary, arr).Some? || FindByArray(st.motifsPlaying, arr).Some?
             || (|st.primary| > 0 && st.primary[0].instances != arr)
    ensures AlmostEnd(st, arr) == Returned(LtOk, st)
  {
  }

  /** Whether a secondary-queue item starts a state in pool p. */
  predicate StartsIn(c: Command, p: Pool, sounds: map<nat, SoundInstance>)
  {
    match c
    case CmdPlaySecondarySegment(seg) =>
      p == SecondaryPool && seg.instances.Some? && seg.instances.value.ids[0] in sounds && sounds[seg.instances.value.ids[0]].hasSample
    case CmdPlayMotif(seg) =>
      p == MotifPool && seg.instances.Some? && seg.instances.value.ids[0] in sounds && sounds[seg.instances.value.ids[0]].hasSample
    case _ => false
  }

  /** The number of items of a queue that start a state in pool p. */
  function StartCount(q: seq<Command>, p: Pool, sounds: map<nat, SoundInstance>): nat
  {
    if |q| == 0 then 0 else (if StartsIn(q[0], p, sounds) then 1 else 0) + StartCount(q[1..], p, sounds)
  }

  /** Two instance tables with the same instances and samples (timers may differ). */
  predicate SameSamples(a: map<nat, SoundInstance>, b: map<nat, SoundInstance>)
  {
    a.Keys == b.Keys && forall id :: id in a ==> a[id].hasSample == b[id].hasSample
  }

  lemma {:induction false} StartCountSameSamples(q: seq<Command>, p: Pool, a: map<nat, SoundInstance>, b: map<nat, SoundInstance>)
    requires SameSamples(a, b)
    ensures StartCount(q, p, a) == StartCount(q, p, b)
  {
    if |q| > 0 {
      StartCountSameSamples(q[1..], p, a, b);
    }
  }

  lemma RunItemCounts(st: MusicState, c: Command)
    ensures var r := RunItem(st, c);
            SameSamples(r.sounds, st.sounds)
            && |r.secondary| == |st.secondary| + (if StartsIn(c, SecondaryPool, st.sounds) then 1 else 0)
            && |r.motifsPlaying| == |st.motifsPlaying| + (if StartsIn(c, MotifPool, st.sounds) then 1 else 0)
  {
  }

  /** Running the secondary queue starts one state for every secondary segment or motif item whose
      array can be started, each in its own pool. */
  lemma {:induction false} DrainStartsEveryItem(st: MusicState)
    ensures var r := Drain(st);
            |r.secondary| == |st.secondary| + StartCount(st.commands2, SecondaryPool, st.sounds)
            && |r.motifsPlaying| == |st.motifsPlaying| + StartCount(st.commands2, MotifPool, st.sounds)
            && SameSamples(r.sounds, st.sounds)
    decreases |st.commands2|
  {
    if |st.commands2| > 0 {
      var c := st.commands2[0];
      var st1 := RunItem(st, c);
      var st2 := st1.(commands2 := st1.commands2[1..]);
      RunItemCounts(st, c);
      DrainStartsEveryItem(st2);
      StartCountSameSamples(st.commands2[1..], SecondaryPool, st2.sounds, st.sounds);
      StartCountSameSamples(st.commands2[1..], MotifPool, st2.sounds, st.sounds);
    }
  }

  /** A notification that passes the guards and returns has run the whole secondary queue: the
      queue is empty and every item that could start a secondary segment or motif has. */
  lemma AlmostEndRunsSecondaryQueue(st: MusicState, arr: Option<InstanceArray>)
    requires !(FindByArray(st.secondary, arr).Some? || FindByArray(st.motifsPlaying, arr).Some?)
    requires !(|st.primary| > 0 && st.primary[0].instances != arr)
    requires AlmostEnd(st, arr).Returned?
    ensures var start := if st.lastCommand.Some? then st.lastCommand.value + 1 else 0;
            var w := Dispatch(st, start, true);
            var r := AlmostEnd(st, arr).st;
            w.Halted? && r.commands2 == [] && r.lastCommand == w.cursor
            && |r.secondary| == |w.st.secondary| + StartCount(w.st.commands2, SecondaryPool, w.st.sounds)
            && |r.motifsPlaying| == |w.st.motifsPlaying| + StartCount(w.st.commands2, MotifPool, w.st.sounds)
  {
    var start := if st.lastCommand.Some? then st.lastCommand.value + 1 else 0;
    var w := Dispatch(st, start, true);
    DrainStartsEveryItem(w.st.(lastCommand := w.cursor));
    DrainKeepsPrimary(w.st.(lastCommand := w.cursor));
  }

  // ---------------------------------------------------------------- playing secondary segments and motifs

  /** The enact time a play by name goes by: the segment's own default for the default enact. */
  function PlayEnact(seg: Segment, enact: Enact): Enact
  {
    if enact == EnactDefault then seg.defaultEnact else enact
  }

  /** PlaySecondary fails exactly when the manager or the level is not initialised, no secondary
      segment has the name, or the one found has no instance array; a failing call changes nothing,
      and every other call returns LtOk. */
  lemma PlaySecondaryResult(st: MusicState, name: Option<string>, enact: Enact)
    ensures var r := PlaySecondary(st, name, enact);
            var i := FindSegment(st.level.segments, name);
            r.Returned? && (r.result == LtOk || r.result == LtError)
            && (r.result == LtError <==> !st.initialized || !st.levelInitialized || i.None?
                                         || st.level.segments[i.value].instances.None?)
            && (r.result == LtError ==> r.st == st)
  {
  }

  /** PlayMotif fails exactly when the manager or the level is not initialised, no motif has the
      name, or the one found has no instance array; a failing call changes nothing, and every other
      call returns LtOk. */
  lemma PlayMotifResult(st: MusicState, name: Option<string>, enact: Enact)
    ensures var r := PlayMotif(st, name, enact);
            var i := FindSegment(st.level.motifs, name);
            r.Returned? && (r.result == LtOk || r.result == LtError)
            && (r.result == LtError <==> !st.initialized || !st.levelInitialized || i.None?
                                         || st.level.motifs[i.value].instances.None?)
            && (r.result == LtError ==> r.st == st)
  {
  }

  /** A segment to be played with the next segment is only queued: an item that plays it goes to
      the head of the secondary queue, and nothing else changes. */
  lemma PlayOrQueueDefers(st: MusicState, p: Pool, seg: Segment, enact: Enact)
    requires seg.instances.Some? && PlayEnact(seg, enact) == EnactNextSegment
    ensures PlayOrQueue(st, p, seg, enact) == Returned(LtOk, st.(commands2 := [PlayItem(p, seg)] + st.commands2))
    ensures |PlayOrQueue(st, p, seg, enact).st.commands2| == |st.commands2| + 1
  {
  }

  /** The queued item, when the secondary queue runs it, starts the segment in its pool just as
      playing it at once would have. */
  lemma DeferredPlayMatchesNow(st: MusicState, p: Pool, seg: Segment, enact: Enact)
    requires p != PrimaryPool && seg.instances.Some? && PlayEnact(seg, enact) != EnactNextSegment
    ensures RunItem(st, PlayItem(p, seg)) == PlayOrQueue(st, p, seg, enact).st
  {
  }

  /** A segment played at once: the call returns LtOk, only pool p and the instance table change,
      and the pool gains the segment's state at its head exactly when its first instance has a
      sample. */
  lemma PlayOrQueueStarts(st: MusicState, p: Pool, seg: Segment, enact: Enact)
    requires seg.instances.Some? && PlayEnact(seg, enact) != EnactNextSegment
    ensures var r := PlayOrQueue(st, p, seg, enact);
            r.Returned? && r.result == LtOk
            && r.st.commands == st.commands && r.st.commands2 == st.commands2 && r.st.lastCommand == st.lastCommand
            && r.st.level == st.level && r.st.paused == st.paused && r.st.curIntensity == st.curIntensity
            && r.st.sounds.Keys == st.sounds.Keys
            && (p != PrimaryPool ==> r.st.primary == st.primary)
            && (p != SecondaryPool ==> r.st.secondary == st.secondary)
            && (p != MotifPool ==> r.st.motifsPlaying == st.motifsPlaying)
            && Extends(PoolOf(r.st, p), PoolOf(st, p))
    ensures var r := PlayOrQueue(st, p, seg, enact).st;
            var id := seg.instances.value.ids[0];
            var played := id in st.sounds && st.sounds[id].hasSample;
            |PoolOf(r, p)| == |PoolOf(st, p)| + (if played then 1 else 0)
            && (played ==> PoolOf(r, p)[0] == SegState(seg.instances, Some(seg), 1))
  {
    var arr := seg.instances.value;
    assert PlayOrQueue(st, p, seg, enact) == Returned(LtOk, StartArray(st, p, arr, Some(seg), true));
    StartArrayExtends(st, p, arr, Some(seg), true);
    StartArrayCounts(st, p, arr, Some(seg), true);
  }

  /** Starting an array keeps the instance table's keys, and adds the array's state at the head of
      pool p exactly when its first instance has a sample. */
  lemma StartArrayCounts(st: MusicState, p: Pool, arr: InstanceArray, seg: Option<Segment>, resetPrev: bool)
    ensures var r := StartArray(st, p, arr, seg, resetPrev);
            var played := arr.ids[0] in st.sounds && st.sounds[arr.ids[0]].hasSample;
            r.sounds.Keys == st.sounds.Keys
            && |PoolOf(r, p)| == |PoolOf(st, p)| + (if played then 1 else 0)
            && (played ==> PoolOf(r, p)[0] == SegState(Some(arr), seg, 1))
  {
    var st1 := PlayInstance(st, arr.ids[0], resetPrev).1;
    assert PoolOf(st1, p) == PoolOf(st, p);
  }

  // ---------------------------------------------------------------- stopping secondary segments and motifs

  /** The enact time that applies to a state: its own segment's default for the default enact. */
  function EnactFor(s: SegState, enact: Enact): Enact
    requires enact != EnactDefault || s.segment.Some?
  {
    if enact == EnactDefault then s.segment.value.defaultEnact else enact
  }

  /** Every state has an instance array and, with the default enact, a segment. */
  predicate Stoppable(pool: seq<SegState>, enact: Enact)
  {
    forall j :: 0 <= j < |pool| ==> pool[j].instances.Some? && (enact != EnactDefault || pool[j].segment.Some?)
  }

  /** The states that are to play to their end. */
  function Waiting(pool: seq<SegState>, enact: Enact): seq<SegState>
    requires Stoppable(pool, enact)
  {
    if |pool| == 0 then []
    else (if EnactFor(pool[0], enact) == EnactNextSegment then [pool[0]] else []) + Waiting(pool[1..], enact)
  }

  lemma WaitingStep(pool: seq<SegState>, k: nat, enact: Enact)
    requires k < |pool| && Stoppable(pool, enact)
    ensures Stoppable(pool[k..], enact) && Stoppable(pool[k + 1..], enact)
    ensures Waiting(pool[k..], enact) == (if EnactFor(pool[k], enact) == EnactNextSegment then [pool[k]] else []) + Waiting(pool[k + 1..], enact)
  {
    assert pool[k..][1..] == pool[k + 1..];
  }

  lemma StoppableRemove(pool: seq<SegState>, k: nat, enact: Enact)
    requires k < |pool| && Stoppable(pool, enact)
    ensures Stoppable(Remove(pool, k), enact)
  {
    var r := Remove(pool, k);
    forall j | 0 <= j < |r|
      ensures r[j].instances.Some? && (enact != EnactDefault || r[j].segment.Some?)
    {
      if j < k {
        assert r[j] == pool[j];
      } else {
        assert r[j] == pool[j + 1];
      }
    }
  }

  lemma RemoveSplit<T>(s: seq<T>, k: nat)
    requires k < |s|
    ensures Remove(s, k)[..k] == s[..k] && Remove(s, k)[k..] == s[k + 1..]
  {
  }

  lemma {:induction false} StopAllFrom(pool: seq<SegState>, enact: Enact, k: nat)
    requires k <= |pool| && Stoppable(pool, enact)
    ensures Stoppable(pool[k..], enact)
    ensures StopAll(pool, enact, k) == Stopped(pool[..k] + Waiting(pool[k..], enact))
    decreases |pool| - k
  {
    if k == |pool| {
      assert pool[..k] == pool && pool[k..] == [];
    } else {
      WaitingStep(pool, k, enact);
      StopAllUnfold(pool, enact, k);
      var rest := Waiting(pool[k + 1..], enact);
      if EnactFor(pool[k], enact) != EnactNextSegment {
        RemoveSplit(pool, k);
        StoppableRemove(pool, k, enact);
        StopAllFrom(Remove(pool, k), enact, k);
        assert Waiting(pool[k..], enact) == rest;
      } else {
        StopAllFrom(pool, enact, k + 1);
        assert pool[..k + 1] + rest == pool[..k] + ([pool[k]] + rest);
      }
    }
  }

  /** One step of the stop-all walk over a stoppable pool. */
  lemma StopAllUnfold(pool: seq<SegState>, enact: Enact, k: nat)
    requires k < |pool| && Stoppable(pool, enact)
    ensures StopAll(pool, enact, k) == if EnactFor(pool[k], enact) != EnactNextSegment then StopAll(Remove(pool, k), enact, k)
                                       else StopAll(pool, enact, k + 1)
  {
    assert pool[k].instances.Some? && (enact != EnactDefault || pool[k].segment.Some?);
  }

  /** Stopping all states of a pool in which every state has an instance array (and, with the
      default enact, a segment) keeps exactly the states that are to play to their end, in order. */
  lemma StopAllKeepsWaiting(pool: seq<SegState>, enact: Enact)
    requires Stoppable(pool, enact)
    ensures StopAll(pool, enact, 0) == Stopped(Waiting(pool, enact))
  {
    StopAllFrom(pool, enact, 0);
    assert pool[..0] == [] && pool[0..] == pool;
  }

  /** The stop-all walk never ends once it reaches a state without an instance array. */
  lemma {:induction false} StopAllHangsOnNullArray(pool: seq<SegState>, enact: Enact, i: nat, k: nat)
    requires i <= k < |pool| && pool[k].instances.None?
    requires forall j :: i <= j < k ==> pool[j].instances.Some? && (enact != EnactDefault || pool[j].segment.Some?)
    ensures StopAll(pool, enact, i) == PoolHangs
    decreases k - i
  {
    if i < k {
      if EnactFor(pool[i], enact) != EnactNextSegment {
        StopAllHangsOnNullArray(Remove(pool, i), enact, i, k - 1);
      } else {
        StopAllHangsOnNullArray(pool, enact, i + 1, k);
      }
    }
  }

  /** The states not started from a segment of this name. */
  function Unnamed(pool: seq<SegState>, name: string): seq<SegState>
  {
    if |pool| == 0 then []
    else (if Named(pool[0], name) then [] else [pool[0]]) + Unnamed(pool[1..], name)
  }

  /** What stopping by name keeps: states of the pool, none of them of that name, and every
      state not of that name. */
  lemma {:induction false} UnnamedKeepsOthers(pool: seq<SegState>, name: string)
    ensures forall s :: s in Unnamed(pool, name) <==> s in pool && !Named(s, name)
  {
    if |pool| > 0 {
      UnnamedKeepsOthers(pool[1..], name);
      assert pool == [pool[0]] + pool[1..];
    }
  }

  lemma {:induction false} UnnamedAppend(a: seq<SegState>, b: seq<SegState>, name: string)
    ensures Unnamed(a + b, name) == Unnamed(a, name) + Unnamed(b, name)
  {
    if |a| == 0 {
      assert a + b == b;
    } else {
      assert (a + b)[1..] == a[1..] + b;
      UnnamedAppend(a[1..], b, name);
    }
  }

  lemma {:induction false} UnnamedNone(pool: seq<SegState>, name: string)
    requires forall j :: 0 <= j < |pool| ==> !Named(pool[j], name)
    ensures Unnamed(pool, name) == pool
  {
    if |pool| > 0 {
      UnnamedNone(pool[1..], name);
    }
  }

  /** Every state with this name can be stopped: its segment has an instance array and it is not
      to play to its end. */
  predicate NamedStoppable(pool: seq<SegState>, name: string, enact: Enact)
  {
    forall j :: 0 <= j < |pool| && Named(pool[j], name) ==>
      pool[j].segment.value.instances.Some? && EnactFor(pool[j], enact) != EnactNextSegment
  }

  /** Removing a named state leaves the unnamed states as they were. */
  lemma {:induction false} UnnamedRemove(pool: seq<SegState>, i: nat, name: string)
    requires i < |pool| && Named(pool[i], name)
    ensures Unnamed(Remove(pool, i), name) == Unnamed(pool, name)
  {
    if i == 0 {
      assert Remove(pool, i) == pool[1..];
    } else {
      var r1 := Remove(pool[1..], i - 1);
      RemoveAfterHead(pool, i);
      UnnamedRemove(pool[1..], i - 1, name);
      assert ([pool[0]] + r1)[1..] == r1;
    }
  }

  lemma RemoveAfterHead<T>(s: seq<T>, i: nat)
    requires 0 < i < |s|
    ensures Remove(s, i) == [s[0]] + Remove(s[1..], i - 1)
  {
    assert s[1..][..i - 1] == s[1..i];
    assert s[1..][i..] == s[i + 1..];
  }

  lemma NamedStoppableRemove(pool: seq<SegState>, i: nat, name: string, enact: Enact)
    requires i < |pool| && NamedStoppable(pool, name, enact)
    ensures NamedStoppable(Remove(pool, i), name, enact)
  {
    var r := Remove(pool, i);
    forall j | 0 <= j < |r| && Named(r[j], name)
      ensures r[j].segment.value.instances.Some? && EnactFor(r[j], enact) != EnactNextSegment
    {
      if j < i {
        assert r[j] == pool[j];
      } else {
        assert r[j] == pool[j + 1];
      }
    }
  }

  /** Stopping by name, when every state of that name can be stopped, removes exactly those states. */
  lemma {:induction false} StopByNameRemovesNamed(pool: seq<SegState>, name: string, enact: Enact)
    requires NamedStoppable(pool, name, enact)
    ensures StopByName(pool, name, enact) == Stopped(Unnamed(pool, name))
    decreases |pool|
  {
    var f := FindByName(pool, Some(name));
    if f.None? {
      UnnamedNone(pool, name);
    } else {
      var i := f.value;
      UnnamedRemove(pool, i, name);
      NamedStoppableRemove(pool, i, name, enact);
      StopByNameRemovesNamed(Remove(pool, i), name, enact);
    }
  }

  /** Stopping by name never ends when the first state of that name is not removed: its segment has
      no instance array, or it is to play to its end. */
  lemma StopByNameHangs(pool: seq<SegState>, name: string, enact: Enact)
    requires FindByName(pool, Some(name)).Some?
    requires var s := pool[FindByName(pool, Some(name)).value];
             s.segment.value.instances.None? || EnactFor(s, enact) == EnactNextSegment
    ensures StopByName(pool, name, enact) == PoolHangs
  {
  }

  // ---------------------------------------------------------------- enact names

  /** Reading back the name an enact type is written under gives that enact type. */
  lemma EnactNameRoundTrip(e: Enact)
    ensures StringToEnactType(Some(EnactTypeToString(e))) == e
  {
    var s := EnactTypeToString(e);
    assert Lower(s)[0] == LowerChar(s[0]);
    assert Lower("Invalid")[0] == 'i' && Lower("Default")[0] == 'd' && Lower("Measure")[0] == 'm';
    assert Lower("Beat")[0] == 'b' && Lower("Segment")[0] == 's';
  }

  lemma LowerTwice(s: string)
    ensures Lower(Lower(s)) == Lower(s)
  {
    assert forall i :: 0 <= i < |s| ==> Lower(Lower(s))[i] == LowerChar(LowerChar(s[i]));
  }

  /** Enact names are read without regard to case. */
  lemma EnactNamesIgnoreCase(s: string)
    ensures StringToEnactType(Some(Lower(s))) == StringToEnactType(Some(s))
  {
    LowerTwice(s);
    SameNameSameEnact(Lower(s), s);
  }

  /** Two names that differ only in case name the same enact type. */
  lemma SameNameSameEnact(a: string, b: string)
    requires NameEq(a, b)
    ensures StringToEnactType(Some(a)) == StringToEnactType(Some(b))
  {
  }

  // ---------------------------------------------------------------- the timer loop

  /** One tick on a single primary state with one instance started, which neither passes the half of
      its length nor runs out: only that instance's timer goes down, by dt. */
  lemma UpdateRunsTimerDown(st: MusicState, dt: nat)
    requires |st.primary| == 1 && st.primary[0].current == 1 && st.primary[0].instances.Some?
    requires var id := st.primary[0].instances.value.ids[0];
             id in st.sounds && st.sounds[id].timer > dt
             && (st.sounds[id].timer <= st.sounds[id].duration / 2 || st.sounds[id].timer - dt > st.sounds[id].duration / 2)
    ensures var id := st.primary[0].instances.value.ids[0];
            Update(st, dt) == Returned(LtOk, st.(sounds := st.sounds[id := st.sounds[id].(timer := st.sounds[id].timer - dt)]))
  {
  }

  /** One tick in which the only started instance of a single primary state passes the half of its
      length, when the array has further instances: the state's count of started instances goes
      up and the next instance is started. */
  lemma UpdateStartsNextInstance(st: MusicState, dt: nat)
    requires |st.primary| == 1 && st.primary[0].current == 1 && st.primary[0].instances.Some?
    requires |st.primary[0].instances.value.ids| >= 2
    requires var id := st.primary[0].instances.value.ids[0];
             id in st.sounds && st.sounds[id].timer > dt
             && st.sounds[id].timer > st.sounds[id].duration / 2 >= st.sounds[id].timer - dt
    ensures var arr := st.primary[0].instances.value;
            var id := arr.ids[0];
            var st1 := st.(sounds := st.sounds[id := st.sounds[id].(timer := st.sounds[id].timer - dt)],
                           primary := [st.primary[0].(current := 2)]);
            Update(st, dt) == Returned(LtOk, PlayInstance(st1, arr.ids[1], false).1)
  {
    var arr := st.primary[0].instances.value;
    var id := arr.ids[0];
    var st1 := st.(sounds := st.sounds[id := st.sounds[id].(timer := st.sounds[id].timer - dt)]);
    assert st1.primary[0 := st1.primary[0].(current := 2)] == [st.primary[0].(current := 2)];
    var st3 := PlayInstance(st1.(primary := [st.primary[0].(current := 2)]), arr.ids[1], false).1;
    assert HalfWay(st1, 1, arr, 1) == Returned(LtOk, st3);
    assert EndCheck(st3, 1, arr, id, 0) == Returned(LtOk, st3);
    assert UpdateInstance(st, 1, arr, 1, 0, dt) == Returned(LtOk, st3);
    assert UpdateInstances(st3, 1, Some(arr), 1, 1, dt) == Returned(LtOk, st3);
    assert UpdateInstances(st, 1, Some(arr), 1, 0, dt) == Returned(LtOk, st3);
  }

  /** One tick in which the single instance of a single primary state, past the half of its length,
      runs out: the state is removed. */
  lemma UpdateEndsSegment(st: MusicState, dt: nat)
    requires |st.primary| == 1 && st.primary[0].current == 1 && st.primary[0].instances.Some?
    requires var id := st.primary[0].instances.value.ids[0];
             id in st.sounds && st.sounds[id].timer <= dt && st.sounds[id].timer <= st.sounds[id].duration / 2
    ensures var id := st.primary[0].instances.value.ids[0];
            Update(st, dt) == Returned(LtOk, st.(sounds := st.sounds[id := st.sounds[id].(timer := 0)], primary := []))
  {
    var arr := st.primary[0].instances.value;
    var id := arr.ids[0];
    var st1 := st.(sounds := st.sounds[id := st.sounds[id].(timer := 0)]);
    assert FindByArray(st1.primary, Some(arr)) == Some(0);
    assert Remove(st1.primary, 0) == [];
  }
}
