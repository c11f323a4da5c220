/** One tick of the timer loop over any primary pool. In a tick without an almost-end notification
    the loop only runs timers down, starts the next instance of a state whose started instances
    pass the half of their length, and removes a state whose last started instance runs out; this
    module states the instance table and the pool such a tick leaves, and which states it removes. */
module MusicTick {
  import opened Common
  import opened MusicTypes
  import opened MusicSpec

  // ---------------------------------------------------------------- what a tick does to one instance

  /** An instance after dt milliseconds: its timer runs down, stopping at 0. */
  function RunDownBy(inst: SoundInstance, dt: nat): SoundInstance
  {
    inst.(timer := if inst.timer > dt then inst.timer - dt else 0)
  }

  /** Instance `id` passes the half of its length in a tick of dt. */
  predicate PassesHalf(sounds: map<nat, SoundInstance>, id: nat, dt: nat)
  {
    id in sounds && sounds[id].timer > sounds[id].duration / 2 && RunDownBy(sounds[id], dt).timer <= sounds[id].duration / 2
  }

  /** How many of the instances ids[i..count] pass the half of their length. */
  function HalfCount(sounds: map<nat, SoundInstance>, ids: seq<nat>, i: nat, count: nat, dt: nat): nat
    requires count <= |ids|
    decreases if i <= count then count - i else 0
  {
    if i >= count then 0
    else (if PassesHalf(sounds, ids[i], dt) then 1 else 0) + HalfCount(sounds, ids, i + 1, count, dt)
  }

  /** The instances ids[i..count] as a set. */
  function Span(ids: seq<nat>, i: nat, count: nat): set<nat>
    requires i <= count <= |ids|
  {
    set j | i <= j < count :: ids[j]
  }

  lemma SpanStep(ids: seq<nat>, i: nat, count: nat)
    requires i < count <= |ids|
    ensures Span(ids, i, count) == {ids[i]} + Span(ids, i + 1, count)
  {
    forall x | x in Span(ids, i, count)
      ensures x in {ids[i]} + Span(ids, i + 1, count)
    {
      var j :| i <= j < count && ids[j] == x;
      if j > i {
        assert x in Span(ids, i + 1, count);
      }
    }
  }

  predicate Distinct(ids: seq<nat>)
  {
    forall a, b :: 0 <= a < b < |ids| ==> ids[a] != ids[b]
  }

  // ---------------------------------------------------------------- what a tick does to a state

  /** A state the timer loop can update: it has an instance array holding every instance started. */
  predicate Runnable(s: SegState)
  {
    s.instances.Some? && s.current <= |s.instances.value.ids|
  }

  /** How many of the state's started instances pass the half of their length in the tick. */
  function Halves(sounds: map<nat, SoundInstance>, s: SegState, dt: nat): nat
    requires Runnable(s)
  {
    HalfCount(sounds, s.instances.value.ids, 0, s.current, dt)
  }

  /** The state's segment is over in the tick: its last started instance runs out, and no started
      instance passes its half (which would first start another one). */
  predicate Ends(sounds: map<nat, SoundInstance>, s: SegState, dt: nat)
    requires Runnable(s)
  {
    var ids := s.instances.value.ids;
    0 < s.current && Halves(sounds, s, dt) == 0
    && ids[s.current - 1] in sounds && RunDownBy(sounds[ids[s.current - 1]], dt).timer == 0
  }

  /** Every instance of a state's array. */
  function Ids(s: SegState): set<nat>
  {
    if s.instances.Some? then set x | x in s.instances.value.ids else {}
  }

  function IdSet(pool: seq<SegState>): set<nat>
  {
    if |pool| == 0 then {} else Ids(pool[0]) + IdSet(pool[1..])
  }

  /** A tick of a pool without an almost-end notification: every state can be updated, no
      instance belongs to two states or twice to one, and a state passes a half only while it
      has an instance left to start. */
  predicate PlainTick(sounds: map<nat, SoundInstance>, pool: seq<SegState>, dt: nat)
    decreases |pool|
  {
    |pool| == 0
    || (Runnable(pool[0]) && Distinct(pool[0].instances.value.ids)
        && (Halves(sounds, pool[0], dt) > 0 ==> pool[0].current < |pool[0].instances.value.ids|)
        && Ids(pool[0]) !! IdSet(pool[1..]) && PlainTick(sounds, pool[1..], dt))
  }

  /** The started instances of a pool. */
  function StartedSet(pool: seq<SegState>): set<nat>
  {
    if |pool| == 0 then {}
    else (if Runnable(pool[0]) then Span(pool[0].instances.value.ids, 0, pool[0].current) else {}) + StartedSet(pool[1..])
  }

  /** The instances a tick starts: the next one of every state that passes a half. */
  function Starts(sounds: map<nat, SoundInstance>, pool: seq<SegState>, dt: nat): set<nat>
  {
    if |pool| == 0 then {}
    else
      var s := pool[0];
      (if Runnable(s) && Halves(sounds, s, dt) > 0 && s.current < |s.instances.value.ids|
       then {s.instances.value.ids[s.current]} else {})
      + Starts(sounds, pool[1..], dt)
  }

  /** The pool after a plain tick: a state whose segment is over is gone, and every other one
      counts one more started instance for each of its instances that passed its half. */
  function TickPool(sounds: map<nat, SoundInstance>, pool: seq<SegState>, dt: nat): seq<SegState>
  {
    if |pool| == 0 then []
    else if !Runnable(pool[0]) then pool
    else
      var s := pool[0];
      (if Ends(sounds, s, dt) then [] else [s.(current := s.current + Halves(sounds, s, dt))])
      + TickPool(sounds, pool[1..], dt)
  }

  /** The instance table after a tick: the instances in `down` have run down by dt, and those in
      `started` that have a sample start again from their full length. */
  function TickSounds(sounds: map<nat, SoundInstance>, down: set<nat>, started: set<nat>, dt: nat): (r: map<nat, SoundInstance>)
    ensures r.Keys == sounds.Keys
  {
    map id | id in sounds ::
      if id in down then RunDownBy(sounds[id], dt)
      else if id in started && sounds[id].hasSample then sounds[id].(timer := sounds[id].duration)
      else sounds[id]
  }

  // ---------------------------------------------------------------- the instance table

  lemma TickSoundsNone(sounds: map<nat, SoundInstance>, dt: nat)
    ensures TickSounds(sounds, {}, {}, dt) == sounds
  {
  }

  lemma TickSoundsMissing(orig: map<nat, SoundInstance>, down: set<nat>, started: set<nat>, id: nat, dt: nat)
    requires id !in orig
    ensures TickSounds(orig, down + {id}, started, dt) == TickSounds(orig, down, started, dt)
  {
  }

  lemma TickSoundsDown(orig: map<nat, SoundInstance>, down: set<nat>, started: set<nat>, id: nat, dt: nat)
    requires id in orig
    ensures TickSounds(orig, down, started, dt)[id := RunDownBy(orig[id], dt)] == TickSounds(orig, down + {id}, started, dt)
  {
  }

  /** Starting an instance that has not run down in this tick gives it its full length again. */
  lemma TickSoundsStart(st: MusicState, orig: map<nat, SoundInstance>, down: set<nat>, started: set<nat>, id: nat, dt: nat)
    requires st.sounds == TickSounds(orig, down, started, dt) && id !in down
    ensures PlayInstance(st, id, false).1 == st.(sounds := TickSounds(orig, down, started + {id}, dt))
  {
    var m := TickSounds(orig, down, started + {id}, dt);
    if id in orig && orig[id].hasSample {
      assert st.sounds[id := st.sounds[id].(timer := st.sounds[id].duration)] == m;
    } else {
      assert st.sounds == m;
    }
  }

  // ---------------------------------------------------------------- one instance of the state being updated

  /** The array of a state found after states that do not hold it. */
  lemma FindByArrayAt(front: seq<SegState>, x: SegState, back: seq<SegState>)
    requires forall j :: 0 <= j < |front| ==> front[j].instances != x.instances
    ensures FindByArray(front + [x] + back, x.instances) == Some(|front|)
  {
    var p := front + [x] + back;
    assert p[|front|] == x;
  }

  /** What the state being updated, the one after `front`, looks like while its instances are
      visited: `b` instances have passed their half so far, and the instance table has the
      instances of `down` run down and those of `started` started again. */
  predicate Visiting(st: MusicState, orig: map<nat, SoundInstance>, down: set<nat>, started: set<nat>,
                     front: seq<SegState>, s: SegState, back: seq<SegState>, b: nat, i: nat, dt: nat)
  {
    Runnable(s) && Distinct(s.instances.value.ids) && i <= s.current
    && (HalfCount(orig, s.instances.value.ids, i, s.current, dt) > 0 ==> s.current < |s.instances.value.ids|)
    && st.primary == front + [s.(current := s.current + b)] + back
    && (forall j :: 0 <= j < |front| ==> front[j].instances != s.instances)
    && st.sounds == TickSounds(orig, down, started, dt)
    && (forall j :: i <= j < s.current ==> s.instances.value.ids[j] !in down && s.instances.value.ids[j] !in started)
    && (s.current < |s.instances.value.ids| ==> s.instances.value.ids[s.current] !in down)
  }

  /** An instance missing from the table is passed over. */
  lemma StepMissing(st: MusicState, orig: map<nat, SoundInstance>, down: set<nat>, started: set<nat>,
                    front: seq<SegState>, s: SegState, back: seq<SegState>, b: nat, i: nat, dt: nat)
    requires Visiting(st, orig, down, started, front, s, back, b, i, dt) && i < s.current
    requires s.instances.value.ids[i] !in orig
    ensures UpdateInstance(st, 1 + |back|, s.instances.value, s.current, i, dt)
            == Returned(LtOk, st.(sounds := TickSounds(orig, down + {s.instances.value.ids[i]}, started, dt)))
  {
    TickSoundsMissing(orig, down, started, s.instances.value.ids[i], dt);
  }

  /** An instance that passes its half, while its state has one left to start: the state counts
      one more started instance and the next one is started. */
  lemma StepHalf(st: MusicState, orig: map<nat, SoundInstance>, down: set<nat>, started: set<nat>,
                 front: seq<SegState>, s: SegState, back: seq<SegState>, b: nat, i: nat, dt: nat)
    requires Visiting(st, orig, down, started, front, s, back, b, i, dt) && i < s.current
    requires PassesHalf(orig, s.instances.value.ids[i], dt)
    ensures s.current < |s.instances.value.ids|
    ensures var ids := s.instances.value.ids;
            UpdateInstance(st, 1 + |back|, s.instances.value, s.current, i, dt)
            == Returned(LtOk, st.(sounds := TickSounds(orig, down + {ids[i]}, started + {ids[s.current]}, dt),
                                  primary := front + [s.(current := s.current + b + 1)] + back))
  {
    var arr := s.instances.value;
    var ids := arr.ids;
    var count := s.current;
    var id := ids[i];
    var remaining := 1 + |back|;
    assert HalfCount(orig, ids, i, count, dt) > 0;
    assert st.sounds[id] == orig[id];
    TickSoundsDown(orig, down, started, id, dt);
    var st1 := st.(sounds := TickSounds(orig, down + {id}, started, dt));
    assert st1 == st.(sounds := st.sounds[id := RunDownBy(st.sounds[id], dt)]);
    var pool2 := front + [s.(current := count + b + 1)] + back;
    assert st1.primary[|front| := s.(current := count + b + 1)] == pool2;
    var st2 := st1.(primary := pool2);
    assert ids[count] != id;
    TickSoundsStart(st2, orig, down + {id}, started, ids[count], dt);
    var st3 := st2.(sounds := TickSounds(orig, down + {id}, started + {ids[count]}, dt));
    assert HalfWay(st1, remaining, arr, count) == Returned(LtOk, st3);
    InstanceHalfWay(st, remaining, arr, count, i, dt, st3);
    assert st3.primary[|st3.primary| - remaining] == s.(current := count + b + 1);
  }

  /** An instance in the table that does not pass its half only runs down before the check for
      the segment's end. */
  lemma InstanceRunsDown(st: MusicState, remaining: nat, arr: InstanceArray, count: nat, i: nat, dt: nat)
    requires i < |arr.ids| && arr.ids[i] in st.sounds && !PassesHalf(st.sounds, arr.ids[i], dt)
    ensures var id := arr.ids[i];
            UpdateInstance(st, remaining, arr, count, i, dt)
            == EndCheck(st.(sounds := st.sounds[id := RunDownBy(st.sounds[id], dt)]), remaining, arr, id, i)
  {
  }

  /** An instance that passes its half runs down, then the half is handled, before the check for
      the segment's end. */
  lemma InstanceHalfWay(st: MusicState, remaining: nat, arr: InstanceArray, count: nat, i: nat, dt: nat, st2: MusicState)
    requires i < |arr.ids| && PassesHalf(st.sounds, arr.ids[i], dt)
    requires var id := arr.ids[i];
             HalfWay(st.(sounds := st.sounds[id := RunDownBy(st.sounds[id], dt)]), remaining, arr, count) == Returned(LtOk, st2)
    ensures UpdateInstance(st, remaining, arr, count, i, dt) == EndCheck(st2, remaining, arr, arr.ids[i], i)
  {
  }

  /** An instance that does not pass its half, and does not end the segment: its timer runs down
      and nothing else changes. */
  lemma StepRunsDown(st: MusicState, orig: map<nat, SoundInstance>, down: set<nat>, started: set<nat>,
                     front: seq<SegState>, s: SegState, back: seq<SegState>, b: nat, i: nat, dt: nat)
    requires Visiting(st, orig, down, started, front, s, back, b, i, dt) && i < s.current
    requires s.instances.value.ids[i] in orig && !PassesHalf(orig, s.instances.value.ids[i], dt)
    requires !(i + 1 == s.current && b == 0 && RunDownBy(orig[s.instances.value.ids[i]], dt).timer == 0)
    ensures UpdateInstance(st, 1 + |back|, s.instances.value, s.current, i, dt)
            == Returned(LtOk, st.(sounds := TickSounds(orig, down + {s.instances.value.ids[i]}, started, dt)))
  {
    var arr := s.instances.value;
    var id := arr.ids[i];
    assert st.sounds[id] == orig[id];
    InstanceRunsDown(st, 1 + |back|, arr, s.current, i, dt);
    TickSoundsDown(orig, down, started, id, dt);
    var st1 := st.(sounds := TickSounds(orig, down + {id}, started, dt));
    assert st1 == st.(sounds := st.sounds[id := RunDownBy(st.sounds[id], dt)]);
    assert st1.primary[|st1.primary| - (1 + |back|)] == s.(current := s.current + b);
  }

  /** The segment's end check, when the instance has run out and is the last one started of the
      state after `front`, removes that state. */
  lemma EndsAtFront(st: MusicState, front: seq<SegState>, x: SegState, back: seq<SegState>,
                    arr: InstanceArray, id: nat, i: nat)
    requires st.primary == front + [x] + back && x.instances == Some(arr)
    requires forall j :: 0 <= j < |front| ==> front[j].instances != x.instances
    requires id in st.sounds && st.sounds[id].timer == 0 && i + 1 == x.current
    ensures EndCheck(st, 1 + |back|, arr, id, i) == Returned(LtOk, st.(primary := front + back))
  {
    FindByArrayAt(front, x, back);
    assert Remove(st.primary, |front|) == front + back;
  }

  /** An instance that does not pass its half, is its state's last started instance and runs
      out, while no instance of the state has passed its half: the state is removed. */
  lemma StepEnds(st: MusicState, orig: map<nat, SoundInstance>, down: set<nat>, started: set<nat>,
                 front: seq<SegState>, s: SegState, back: seq<SegState>, b: nat, i: nat, dt: nat)
    requires Visiting(st, orig, down, started, front, s, back, b, i, dt) && i < s.current
    requires Fires(orig, s, b, i, dt)
    ensures UpdateInstance(st, 1 + |back|, s.instances.value, s.current, i, dt)
            == Returned(LtOk, st.(sounds := TickSounds(orig, down + {s.instances.value.ids[i]}, started, dt),
                                  primary := front + back))
  {
    var arr := s.instances.value;
    var id := arr.ids[i];
    assert st.sounds[id] == orig[id];
    InstanceRunsDown(st, 1 + |back|, arr, s.current, i, dt);
    TickSoundsDown(orig, down, started, id, dt);
    var st1 := st.(sounds := TickSounds(orig, down + {id}, started, dt));
    assert st1 == st.(sounds := st.sounds[id := RunDownBy(st.sounds[id], dt)]);
    EndsAtFront(st1, front, s.(current := s.current + b), back, arr, id, i);
  }

  /** Where visiting the state's instances from the i-th on leads: the state counts one more
      started instance per instance that passes its half, or is removed when its segment is
      over; the visited instances are run down and the state's next instance is started when a
      half is passed. */
  function VisitResult(st: MusicState, orig: map<nat, SoundInstance>, down: set<nat>, started: set<nat>,
                       front: seq<SegState>, s: SegState, back: seq<SegState>, b: nat, i: nat, dt: nat): MusicState
    requires Runnable(s) && i <= s.current
  {
    var ids := s.instances.value.ids;
    var count := s.current;
    var rest := HalfCount(orig, ids, i, count, dt);
    var ended := i < count && b + rest == 0 && ids[count - 1] in orig && RunDownBy(orig[ids[count - 1]], dt).timer == 0;
    var kept := if ended then [] else [s.(current := count + b + rest)];
    var more := if rest > 0 && count < |ids| then {ids[count]} else {};
    st.(sounds := TickSounds(orig, down + Span(ids, i, count), started + more, dt), primary := front + kept + back)
  }

  /** Visiting an instance whose state goes on being updated. */
  lemma VisitResultNext(st: MusicState, st1: MusicState, orig: map<nat, SoundInstance>, down: set<nat>, started: set<nat>,
                        front: seq<SegState>, s: SegState, back: seq<SegState>, b: nat, i: nat, dt: nat, c: nat, more1: set<nat>)
    requires Runnable(s) && i < s.current
    requires c == if PassesHalf(orig, s.instances.value.ids[i], dt) then 1 else 0
    requires more1 == if c == 1 && s.current < |s.instances.value.ids| then {s.instances.value.ids[s.current]} else {}
    requires !(i + 1 == s.current && b + c == 0 && s.instances.value.ids[i] in orig
               && RunDownBy(orig[s.instances.value.ids[i]], dt).timer == 0)
    requires st1 == st.(sounds := st1.sounds, primary := st1.primary)
    ensures VisitResult(st, orig, down, started, front, s, back, b, i, dt)
            == VisitResult(st1, orig, down + {s.instances.value.ids[i]}, started + more1, front, s, back, b + c, i + 1, dt)
  {
    var ids := s.instances.value.ids;
    var count := s.current;
    var rest := HalfCount(orig, ids, i + 1, count, dt);
    SpanStep(ids, i, count);
    assert HalfCount(orig, ids, i, count, dt) == c + rest;
    assert down + Span(ids, i, count) == (down + {ids[i]}) + Span(ids, i + 1, count);
    var more := if c + rest > 0 && count < |ids| then {ids[count]} else {};
    var more2 := if rest > 0 && count < |ids| then {ids[count]} else {};
    assert started + more == (started + more1) + more2;
    var ended := b + c + rest == 0 && ids[count - 1] in orig && RunDownBy(orig[ids[count - 1]], dt).timer == 0;
    var ended2 := i + 1 < count && ended;
    assert ended == ended2;
    assert s.(current := count + b + (c + rest)) == s.(current := count + (b + c) + rest);
  }

  /** Visiting the last started instance when it ends the state's segment. */
  lemma VisitResultFires(st: MusicState, orig: map<nat, SoundInstance>, down: set<nat>, started: set<nat>,
                         front: seq<SegState>, s: SegState, back: seq<SegState>, b: nat, i: nat, dt: nat)
    requires Runnable(s) && i + 1 == s.current && b == 0
    requires s.instances.value.ids[i] in orig && !PassesHalf(orig, s.instances.value.ids[i], dt)
    requires RunDownBy(orig[s.instances.value.ids[i]], dt).timer == 0
    ensures VisitResult(st, orig, down, started, front, s, back, b, i, dt)
            == st.(sounds := TickSounds(orig, down + {s.instances.value.ids[i]}, started, dt), primary := front + back)
  {
    var ids := s.instances.value.ids;
    SpanStep(ids, i, s.current);
    assert Span(ids, i + 1, s.current) == {};
    assert HalfCount(orig, ids, i, s.current, dt) == 0;
    assert front + [] + back == front + back;
  }

  /** An instance the loop has updated without a failure hands the loop on to the next one. */
  lemma InstancesStep(st: MusicState, st1: MusicState, remaining: nat, arr: InstanceArray, count: nat, i: nat, dt: nat)
    requires i < count && i < |arr.ids|
    requires UpdateInstance(st, remaining, arr, count, i, dt) == Returned(LtOk, st1)
    ensures UpdateInstances(st, remaining, Some(arr), count, i, dt) == UpdateInstances(st1, remaining, Some(arr), count, i + 1, dt)
  {
  }

  /** Visiting goes on with the next instance once the i-th has run down, started the instance
      in `more` and counted c more started instances. */
  lemma VisitingStep(st: MusicState, orig: map<nat, SoundInstance>, down: set<nat>, started: set<nat>,
                     front: seq<SegState>, s: SegState, back: seq<SegState>, b: nat, i: nat, dt: nat, c: nat, more: set<nat>)
    requires Visiting(st, orig, down, started, front, s, back, b, i, dt) && i < s.current
    requires c <= HalfCount(orig, s.instances.value.ids, i, s.current, dt) - HalfCount(orig, s.instances.value.ids, i + 1, s.current, dt)
    requires more <= if s.current < |s.instances.value.ids| then {s.instances.value.ids[s.current]} else {}
    ensures Visiting(st.(sounds := TickSounds(orig, down + {s.instances.value.ids[i]}, started + more, dt),
                         primary := front + [s.(current := s.current + b + c)] + back),
                     orig, down + {s.instances.value.ids[i]}, started + more, front, s, back, b + c, i + 1, dt)
  {
    var ids := s.instances.value.ids;
    assert HalfCount(orig, ids, i, s.current, dt) == (if PassesHalf(orig, ids[i], dt) then 1 else 0) + HalfCount(orig, ids, i + 1, s.current, dt);
    forall j | i + 1 <= j < s.current
      ensures ids[j] != ids[i] && (s.current < |ids| ==> ids[j] != ids[s.current])
    {
    }
    if s.current < |ids| {
      assert ids[s.current] != ids[i];
    }
    assert s.(current := s.current + b + c) == s.(current := s.current + (b + c));
  }

  /** The i-th instance is the state's last started one, no instance has passed its half and
      it runs out: the state's segment is over. */
  predicate Fires(orig: map<nat, SoundInstance>, s: SegState, b: nat, i: nat, dt: nat)
    requires Runnable(s) && i < s.current
  {
    var id := s.instances.value.ids[i];
    i + 1 == s.current && b == 0 && id in orig && !PassesHalf(orig, id, dt) && RunDownBy(orig[id], dt).timer == 0
  }

  /** The instances visiting the i-th starts: the state's next one, when the i-th passes its half. */
  function NextMore(orig: map<nat, SoundInstance>, s: SegState, i: nat, dt: nat): set<nat>
    requires Runnable(s) && i < s.current
  {
    var ids := s.instances.value.ids;
    if PassesHalf(orig, ids[i], dt) && s.current < |ids| then {ids[s.current]} else {}
  }

  function NextHalf(orig: map<nat, SoundInstance>, s: SegState, i: nat, dt: nat): nat
    requires Runnable(s) && i < s.current
  {
    if PassesHalf(orig, s.instances.value.ids[i], dt) then 1 else 0
  }

  /** The state once the i-th instance has been visited, when the segment goes on. */
  function NextState(st: MusicState, orig: map<nat, SoundInstance>, down: set<nat>, started: set<nat>,
                     front: seq<SegState>, s: SegState, back: seq<SegState>, b: nat, i: nat, dt: nat): MusicState
    requires Runnable(s) && i < s.current
  {
    st.(sounds := TickSounds(orig, down + {s.instances.value.ids[i]}, started + NextMore(orig, s, i, dt), dt),
        primary := front + [s.(current := s.current + b + NextHalf(orig, s, i, dt))] + back)
  }

  /** Visiting the i-th instance when the segment goes on: the loop goes on from NextState. */
  lemma VisitOneStep(st: MusicState, orig: map<nat, SoundInstance>, down: set<nat>, started: set<nat>,
                 front: seq<SegState>, s: SegState, back: seq<SegState>, b: nat, i: nat, dt: nat)
    requires Visiting(st, orig, down, started, front, s, back, b, i, dt) && i < s.current
    requires !Fires(orig, s, b, i, dt)
    ensures UpdateInstances(st, 1 + |back|, s.instances, s.current, i, dt)
            == UpdateInstances(NextState(st, orig, down, started, front, s, back, b, i, dt), 1 + |back|, s.instances, s.current, i + 1, dt)
  {
    var arr := s.instances.value;
    var id := arr.ids[i];
    var st1 := NextState(st, orig, down, started, front, s, back, b, i, dt);
    if id !in orig {
      StepMissing(st, orig, down, started, front, s, back, b, i, dt);
      assert started + {} == started;
      assert front + [s.(current := s.current + b + 0)] + back == st.primary;
      assert st1 == st.(sounds := TickSounds(orig, down + {id}, started, dt));
    } else if PassesHalf(orig, id, dt) {
      StepHalf(st, orig, down, started, front, s, back, b, i, dt);
    } else {
      StepRunsDown(st, orig, down, started, front, s, back, b, i, dt);
      assert started + {} == started;
      assert front + [s.(current := s.current + b + 0)] + back == st.primary;
    }
    InstancesStep(st, st1, 1 + |back|, arr, s.current, i, dt);
  }

  /** Visiting the i-th instance keeps the picture of the loop, for NextState and the next index. */
  lemma VisitOneState(st: MusicState, orig: map<nat, SoundInstance>, down: set<nat>, started: set<nat>,
                      front: seq<SegState>, s: SegState, back: seq<SegState>, b: nat, i: nat, dt: nat)
    requires Visiting(st, orig, down, started, front, s, back, b, i, dt) && i < s.current
    ensures var st1 := NextState(st, orig, down, started, front, s, back, b, i, dt);
            Visiting(st1, orig, down + {s.instances.value.ids[i]}, started + NextMore(orig, s, i, dt),
                     front, s, back, b + NextHalf(orig, s, i, dt), i + 1, dt)
  {
    var ids := s.instances.value.ids;
    assert HalfCount(orig, ids, i, s.current, dt) == NextHalf(orig, s, i, dt) + HalfCount(orig, ids, i + 1, s.current, dt);
    VisitingStep(st, orig, down, started, front, s, back, b, i, dt, NextHalf(orig, s, i, dt), NextMore(orig, s, i, dt));
  }

  /** Visiting the i-th instance when the segment goes on leads where visiting from NextState does. */
  lemma VisitOneResult(st: MusicState, orig: map<nat, SoundInstance>, down: set<nat>, started: set<nat>,
                       front: seq<SegState>, s: SegState, back: seq<SegState>, b: nat, i: nat, dt: nat)
    requires Runnable(s) && i < s.current
    requires !Fires(orig, s, b, i, dt)
    ensures VisitResult(st, orig, down, started, front, s, back, b, i, dt)
            == VisitResult(NextState(st, orig, down, started, front, s, back, b, i, dt), orig,
                           down + {s.instances.value.ids[i]}, started + NextMore(orig, s, i, dt),
                           front, s, back, b + NextHalf(orig, s, i, dt), i + 1, dt)
  {
    VisitResultNext(st, NextState(st, orig, down, started, front, s, back, b, i, dt), orig, down, started,
                    front, s, back, b, i, dt, NextHalf(orig, s, i, dt), NextMore(orig, s, i, dt));
  }

  /** Visiting the i-th instance when the segment goes on. */
  lemma VisitOne(st: MusicState, orig: map<nat, SoundInstance>, down: set<nat>, started: set<nat>,
                 front: seq<SegState>, s: SegState, back: seq<SegState>, b: nat, i: nat, dt: nat)
    requires Visiting(st, orig, down, started, front, s, back, b, i, dt) && i < s.current
    requires !Fires(orig, s, b, i, dt)
    ensures var st1 := NextState(st, orig, down, started, front, s, back, b, i, dt);
            var id := s.instances.value.ids[i];
            var more := NextMore(orig, s, i, dt);
            var c := NextHalf(orig, s, i, dt);
            && UpdateInstances(st, 1 + |back|, s.instances, s.current, i, dt)
               == UpdateInstances(st1, 1 + |back|, s.instances, s.current, i + 1, dt)
            && Visiting(st1, orig, down + {id}, started + more, front, s, back, b + c, i + 1, dt)
            && VisitResult(st, orig, down, started, front, s, back, b, i, dt)
               == VisitResult(st1, orig, down + {id}, started + more, front, s, back, b + c, i + 1, dt)
  {
    VisitOneStep(st, orig, down, started, front, s, back, b, i, dt);
    VisitOneState(st, orig, down, started, front, s, back, b, i, dt);
    VisitOneResult(st, orig, down, started, front, s, back, b, i, dt);
  }

  /** Visiting the i-th instance when it ends the segment. */
  lemma VisitLast(st: MusicState, orig: map<nat, SoundInstance>, down: set<nat>, started: set<nat>,
                  front: seq<SegState>, s: SegState, back: seq<SegState>, b: nat, i: nat, dt: nat)
    requires Visiting(st, orig, down, started, front, s, back, b, i, dt) && i < s.current
    requires Fires(orig, s, b, i, dt)
    ensures UpdateInstances(st, 1 + |back|, s.instances, s.current, i, dt)
            == Returned(LtOk, VisitResult(st, orig, down, started, front, s, back, b, i, dt))
  {
    var arr := s.instances.value;
    var id := arr.ids[i];
    StepEnds(st, orig, down, started, front, s, back, b, i, dt);
    var st1 := st.(sounds := TickSounds(orig, down + {id}, started, dt), primary := front + back);
    InstancesStep(st, st1, 1 + |back|, arr, s.current, i, dt);
    VisitResultFires(st, orig, down, started, front, s, back, b, i, dt);
  }

  /** The rest of the state's instances, from the i-th, lead where VisitResult says. */
  lemma {:induction false} VisitRest(st: MusicState, orig: map<nat, SoundInstance>, down: set<nat>, started: set<nat>,
                                     front: seq<SegState>, s: SegState, back: seq<SegState>, b: nat, i: nat, dt: nat)
    requires Visiting(st, orig, down, started, front, s, back, b, i, dt)
    ensures UpdateInstances(st, 1 + |back|, s.instances, s.current, i, dt)
            == Returned(LtOk, VisitResult(st, orig, down, started, front, s, back, b, i, dt))
    decreases s.current - i, 1
  {
    if i == s.current {
      VisitDone(st, orig, down, started, front, s, back, b, i, dt);
    } else if Fires(orig, s, b, i, dt) {
      VisitLast(st, orig, down, started, front, s, back, b, i, dt);
    } else {
      VisitNext(st, orig, down, started, front, s, back, b, i, dt);
    }
  }

  /** Once every started instance is visited, the loop is over. */
  lemma VisitDone(st: MusicState, orig: map<nat, SoundInstance>, down: set<nat>, started: set<nat>,
                  front: seq<SegState>, s: SegState, back: seq<SegState>, b: nat, i: nat, dt: nat)
    requires Visiting(st, orig, down, started, front, s, back, b, i, dt) && i == s.current
    ensures UpdateInstances(st, 1 + |back|, s.instances, s.current, i, dt)
            == Returned(LtOk, VisitResult(st, orig, down, started, front, s, back, b, i, dt))
  {
    assert Span(s.instances.value.ids, i, s.current) == {};
    assert down + {} == down && started + {} == started;
  }

  /** An instance visited while the segment goes on hands the rest of the visit on. */
  lemma {:induction false} VisitNext(st: MusicState, orig: map<nat, SoundInstance>, down: set<nat>, started: set<nat>,
                                     front: seq<SegState>, s: SegState, back: seq<SegState>, b: nat, i: nat, dt: nat)
    requires Visiting(st, orig, down, started, front, s, back, b, i, dt) && i < s.current
    requires !Fires(orig, s, b, i, dt)
    ensures UpdateInstances(st, 1 + |back|, s.instances, s.current, i, dt)
            == Returned(LtOk, VisitResult(st, orig, down, started, front, s, back, b, i, dt))
    decreases s.current - i, 0
  {
    VisitOne(st, orig, down, started, front, s, back, b, i, dt);
    VisitRest(NextState(st, orig, down, started, front, s, back, b, i, dt), orig, down + {s.instances.value.ids[i]},
              started + NextMore(orig, s, i, dt), front, s, back, b + NextHalf(orig, s, i, dt), i + 1, dt);
  }

  // ---------------------------------------------------------------- the states of the pool

  lemma IdsHoldFirst(s: SegState)
    requires s.instances.Some?
    ensures s.instances.value.ids[0] in Ids(s)
  {
  }

  lemma SpanInIds(s: SegState)
    requires Runnable(s)
    ensures Span(s.instances.value.ids, 0, s.current) <= Ids(s)
    ensures s.current < |s.instances.value.ids| ==> s.instances.value.ids[s.current] in Ids(s)
  {
  }

  /** What updating the first of the states `rest` adds to the run-down instances, to the started
      instances and to the updated states. */
  function HeadDown(down: set<nat>, rest: seq<SegState>): set<nat>
    requires |rest| > 0 && Runnable(rest[0])
  {
    down + Span(rest[0].instances.value.ids, 0, rest[0].current)
  }

  function HeadStarted(orig: map<nat, SoundInstance>, started: set<nat>, rest: seq<SegState>, dt: nat): set<nat>
    requires |rest| > 0 && Runnable(rest[0])
  {
    var s := rest[0];
    started + (if Halves(orig, s, dt) > 0 && s.current < |s.instances.value.ids| then {s.instances.value.ids[s.current]} else {})
  }

  function HeadFront(orig: map<nat, SoundInstance>, front: seq<SegState>, rest: seq<SegState>, dt: nat): seq<SegState>
    requires |rest| > 0 && Runnable(rest[0])
  {
    var s := rest[0];
    front + (if Ends(orig, s, dt) then [] else [s.(current := s.current + Halves(orig, s, dt))])
  }

  /** The states `rest` still to be updated, after the updated states `front`, with the instance
      table as it stands, and `seen` the instances of the states already updated. */
  predicate StatesAhead(st: MusicState, orig: map<nat, SoundInstance>, down: set<nat>, started: set<nat>,
                        front: seq<SegState>, rest: seq<SegState>, seen: set<nat>, dt: nat)
  {
    st.primary == front + rest
    && PlainTick(orig, rest, dt)
    && st.sounds == TickSounds(orig, down, started, dt)
    && (forall j :: 0 <= j < |front| ==> front[j].instances.Some? && front[j].instances.value.ids[0] in seen)
    && down <= seen && started <= seen && seen !! IdSet(rest)
  }

  /** The state once the first of the states `rest` has been updated. */
  function HeadState(st: MusicState, orig: map<nat, SoundInstance>, down: set<nat>, started: set<nat>,
                     front: seq<SegState>, rest: seq<SegState>, dt: nat): MusicState
    requires |rest| > 0 && Runnable(rest[0])
  {
    st.(sounds := TickSounds(orig, HeadDown(down, rest), HeadStarted(orig, started, rest, dt), dt),
        primary := HeadFront(orig, front, rest, dt) + rest[1..])
  }

  lemma AheadRunnable(st: MusicState, orig: map<nat, SoundInstance>, down: set<nat>, started: set<nat>,
                      front: seq<SegState>, rest: seq<SegState>, seen: set<nat>, dt: nat)
    requires StatesAhead(st, orig, down, started, front, rest, seen, dt) && |rest| > 0
    ensures Runnable(rest[0])
  {
  }

  /** The first of the states `rest` is visited from its first instance on. */
  lemma HeadVisiting(st: MusicState, orig: map<nat, SoundInstance>, down: set<nat>, started: set<nat>,
                     front: seq<SegState>, rest: seq<SegState>, seen: set<nat>, dt: nat)
    requires StatesAhead(st, orig, down, started, front, rest, seen, dt) && |rest| > 0 && Runnable(rest[0])
    ensures Visiting(st, orig, down, started, front, rest[0], rest[1..], 0, 0, dt)
  {
    var s := rest[0];
    var back := rest[1..];
    assert rest == [s] + back;
    assert IdSet(rest) == Ids(s) + IdSet(back);
    SpanInIds(s);
    assert s.(current := s.current + 0) == s;
  }

  /** Visiting all of the first state's instances leads to HeadState. */
  lemma HeadResult(st: MusicState, orig: map<nat, SoundInstance>, down: set<nat>, started: set<nat>,
                   front: seq<SegState>, rest: seq<SegState>, dt: nat)
    requires |rest| > 0 && Runnable(rest[0])
    ensures VisitResult(st, orig, down, started, front, rest[0], rest[1..], 0, 0, dt) == HeadState(st, orig, down, started, front, rest, dt)
  {
  }

  /** Updating the first of the states `rest` hands the loop on to the next. */
  lemma VisitHead(st: MusicState, orig: map<nat, SoundInstance>, down: set<nat>, started: set<nat>,
                  front: seq<SegState>, rest: seq<SegState>, seen: set<nat>, dt: nat)
    requires StatesAhead(st, orig, down, started, front, rest, seen, dt) && |rest| > 0 && Runnable(rest[0])
    ensures UpdateStates(st, |rest|, dt) == UpdateStates(HeadState(st, orig, down, started, front, rest, dt), |rest| - 1, dt)
  {
    var s := rest[0];
    var back := rest[1..];
    HeadVisiting(st, orig, down, started, front, rest, seen, dt);
    VisitRest(st, orig, down, started, front, s, back, 0, 0, dt);
    HeadResult(st, orig, down, started, front, rest, dt);
    assert st.primary[|st.primary| - |rest|] == s;
  }

  /** Once the first of the states `rest` is updated, the rest are still to be updated. */
  lemma VisitHeadAhead(st: MusicState, orig: map<nat, SoundInstance>, down: set<nat>, started: set<nat>,
                       front: seq<SegState>, rest: seq<SegState>, seen: set<nat>, dt: nat)
    requires StatesAhead(st, orig, down, started, front, rest, seen, dt) && |rest| > 0 && Runnable(rest[0])
    ensures StatesAhead(HeadState(st, orig, down, started, front, rest, dt), orig, HeadDown(down, rest),
                        HeadStarted(orig, started, rest, dt), HeadFront(orig, front, rest, dt), rest[1..], seen + Ids(rest[0]), dt)
  {
    var s := rest[0];
    var back := rest[1..];
    assert rest == [s] + back;
    assert IdSet(rest) == Ids(s) + IdSet(back);
    IdsHoldFirst(s);
    SpanInIds(s);
    var front1 := HeadFront(orig, front, rest, dt);
    forall j | 0 <= j < |front1|
      ensures front1[j].instances.Some? && front1[j].instances.value.ids[0] in seen + Ids(s)
    {
      if j >= |front| {
        assert front1[j].instances == s.instances;
      }
    }
  }

  /** The states `rest` still to be updated, after the updated states `front`: the tick leaves
      their started instances run down, their next instances started where a half is passed, and
      the pool as TickPool gives. */
  lemma {:induction false} VisitStates(st: MusicState, orig: map<nat, SoundInstance>, down: set<nat>, started: set<nat>,
                                       front: seq<SegState>, rest: seq<SegState>, seen: set<nat>, dt: nat)
    requires StatesAhead(st, orig, down, started, front, rest, seen, dt)
    ensures UpdateStates(st, |rest|, dt)
            == Returned(LtOk, st.(sounds := TickSounds(orig, down + StartedSet(rest), started + Starts(orig, rest, dt), dt),
                                  primary := front + TickPool(orig, rest, dt)))
    decreases |rest|
  {
    if |rest| == 0 {
      assert down + {} == down && started + {} == started;
      assert front + [] == front;
    } else {
      AheadRunnable(st, orig, down, started, front, rest, seen, dt);
      VisitHead(st, orig, down, started, front, rest, seen, dt);
      VisitHeadAhead(st, orig, down, started, front, rest, seen, dt);
      var back := rest[1..];
      var st1 := HeadState(st, orig, down, started, front, rest, dt);
      VisitStates(st1, orig, HeadDown(down, rest), HeadStarted(orig, started, rest, dt), HeadFront(orig, front, rest, dt), back, seen + Ids(rest[0]), dt);
      VisitAssemble(st, orig, down, started, front, rest, dt);
    }
  }

  /** The first state's share of the tick and the rest's make up the whole pool's: the instances
      run down, the instances started and the pool left. */
  lemma VisitAssemble(st: MusicState, orig: map<nat, SoundInstance>, down: set<nat>, started: set<nat>,
                      front: seq<SegState>, rest: seq<SegState>, dt: nat)
    requires |rest| > 0 && Runnable(rest[0])
    ensures HeadDown(down, rest) + StartedSet(rest[1..]) == down + StartedSet(rest)
    ensures HeadStarted(orig, started, rest, dt) + Starts(orig, rest[1..], dt) == started + Starts(orig, rest, dt)
    ensures HeadFront(orig, front, rest, dt) + TickPool(orig, rest[1..], dt) == front + TickPool(orig, rest, dt)
  {
    AssembleDown(down, rest);
    AssembleStarted(orig, started, rest, dt);
    AssembleFront(orig, front, rest, dt);
  }

  lemma AssembleDown(down: set<nat>, rest: seq<SegState>)
    requires |rest| > 0 && Runnable(rest[0])
    ensures HeadDown(down, rest) + StartedSet(rest[1..]) == down + StartedSet(rest)
  {
    var span := Span(rest[0].instances.value.ids, 0, rest[0].current);
    assert StartedSet(rest) == span + StartedSet(rest[1..]);
  }

  lemma AssembleStarted(orig: map<nat, SoundInstance>, started: set<nat>, rest: seq<SegState>, dt: nat)
    requires |rest| > 0 && Runnable(rest[0])
    ensures HeadStarted(orig, started, rest, dt) + Starts(orig, rest[1..], dt) == started + Starts(orig, rest, dt)
  {
    var s := rest[0];
    var more := if Halves(orig, s, dt) > 0 && s.current < |s.instances.value.ids| then {s.instances.value.ids[s.current]} else {};
    assert Starts(orig, rest, dt) == more + Starts(orig, rest[1..], dt);
  }

  lemma AssembleFront(orig: map<nat, SoundInstance>, front: seq<SegState>, rest: seq<SegState>, dt: nat)
    requires |rest| > 0 && Runnable(rest[0])
    ensures HeadFront(orig, front, rest, dt) + TickPool(orig, rest[1..], dt) == front + TickPool(orig, rest, dt)
  {
    var s := rest[0];
    var kept := if Ends(orig, s, dt) then [] else [s.(current := s.current + Halves(orig, s, dt))];
    assert TickPool(orig, rest, dt) == kept + TickPool(orig, rest[1..], dt);
  }

  // ---------------------------------------------------------------- the tick

  /** A tick without an almost-end notification, over any primary pool whose states share no
      instance: it returns LtOk; every started instance runs down by dt (stopping at 0); the next
      instance of every state that passed a half is started; the pool is TickPool's; and nothing
      else changes. */
  lemma UpdatePlainTick(st: MusicState, dt: nat)
    requires PlainTick(st.sounds, st.primary, dt)
    ensures Update(st, dt)
            == Returned(LtOk, st.(sounds := TickSounds(st.sounds, StartedSet(st.primary), Starts(st.sounds, st.primary, dt), dt),
                                  primary := TickPool(st.sounds, st.primary, dt)))
  {
    TickSoundsNone(st.sounds, dt);
    assert [] + st.primary == st.primary;
    assert StatesAhead(st, st.sounds, {}, {}, [], st.primary, {}, dt);
    VisitStates(st, st.sounds, {}, {}, [], st.primary, {}, dt);
    assert {} + StartedSet(st.primary) == StartedSet(st.primary);
    assert {} + Starts(st.sounds, st.primary, dt) == Starts(st.sounds, st.primary, dt);
    assert [] + TickPool(st.sounds, st.primary, dt) == TickPool(st.sounds, st.primary, dt);
  }

  /** A state of a tick with no half passed and no segment over. */
  predicate Quiet(sounds: map<nat, SoundInstance>, s: SegState, dt: nat)
  {
    Runnable(s) && Halves(sounds, s, dt) == 0 && !Ends(sounds, s, dt)
  }

  lemma {:induction false} QuietPoolKept(sounds: map<nat, SoundInstance>, pool: seq<SegState>, dt: nat)
    requires forall k :: 0 <= k < |pool| ==> Quiet(sounds, pool[k], dt)
    ensures TickPool(sounds, pool, dt) == pool && Starts(sounds, pool, dt) == {}
  {
    if |pool| > 0 {
      QuietPoolKept(sounds, pool[1..], dt);
      assert pool[0].(current := pool[0].current + 0) == pool[0];
      assert [pool[0]] + pool[1..] == pool;
    }
  }

  /** A tick in which no started instance passes the half of its length and no state's last
      started instance runs out: it returns LtOk and only lowers the timer of every started
      instance by dt (stopping at 0). */
  lemma UpdateQuietTick(st: MusicState, dt: nat)
    requires PlainTick(st.sounds, st.primary, dt)
    requires forall k :: 0 <= k < |st.primary| ==> Quiet(st.sounds, st.primary[k], dt)
    ensures Update(st, dt).Returned? && Update(st, dt).result == LtOk
    ensures var r := Update(st, dt).st;
            r == st.(sounds := r.sounds) && r.sounds.Keys == st.sounds.Keys
            && forall id :: id in st.sounds ==>
                 r.sounds[id] == (if id in StartedSet(st.primary) then RunDownBy(st.sounds[id], dt) else st.sounds[id])
  {
    UpdatePlainTick(st, dt);
    QuietPoolKept(st.sounds, st.primary, dt);
  }

  // ---------------------------------------------------------------- which states a tick removes

  /** Some state of the pool plays array `a`. */
  predicate HasArray(pool: seq<SegState>, a: Option<InstanceArray>)
  {
    |pool| > 0 && (pool[0].instances == a || HasArray(pool[1..], a))
  }

  lemma {:induction false} HasArrayAppend(x: seq<SegState>, y: seq<SegState>, a: Option<InstanceArray>)
    ensures HasArray(x + y, a) <==> HasArray(x, a) || HasArray(y, a)
  {
    if |x| > 0 {
      assert (x + y)[1..] == x[1..] + y;
      HasArrayAppend(x[1..], y, a);
    } else {
      assert x + y == y;
    }
  }

  lemma {:induction false} HasArrayIds(pool: seq<SegState>, arr: InstanceArray)
    requires HasArray(pool, Some(arr))
    ensures arr.ids[0] in IdSet(pool)
  {
    if pool[0].instances != Some(arr) {
      HasArrayIds(pool[1..], arr);
    }
  }

  lemma {:induction false} TickPoolArrays(sounds: map<nat, SoundInstance>, pool: seq<SegState>, dt: nat, a: Option<InstanceArray>)
    requires HasArray(TickPool(sounds, pool, dt), a)
    ensures HasArray(pool, a)
  {
    if Runnable(pool[0]) {
      var s := pool[0];
      var kept := if Ends(sounds, s, dt) then [] else [s.(current := s.current + Halves(sounds, s, dt))];
      HasArrayAppend(kept, TickPool(sounds, pool[1..], dt), a);
      if HasArray(TickPool(sounds, pool[1..], dt), a) {
        TickPoolArrays(sounds, pool[1..], dt, a);
      }
    }
  }

  /** A plain tick removes exactly the states whose segment is over: a state's array is still
      in the pool after it if and only if the state does not end in it. */
  lemma {:induction false} TickPoolKeepsExactly(sounds: map<nat, SoundInstance>, pool: seq<SegState>, dt: nat)
    requires PlainTick(sounds, pool, dt)
    ensures forall j :: 0 <= j < |pool| ==>
              Runnable(pool[j]) && (HasArray(TickPool(sounds, pool, dt), pool[j].instances) <==> !Ends(sounds, pool[j], dt))
  {
    if |pool| > 0 {
      var s := pool[0];
      var back := pool[1..];
      var kept := if Ends(sounds, s, dt) then [] else [s.(current := s.current + Halves(sounds, s, dt))];
      var tail := TickPool(sounds, back, dt);
      assert TickPool(sounds, pool, dt) == kept + tail;
      TickPoolKeepsExactly(sounds, back, dt);
      IdsHoldFirst(s);
      forall j | 0 <= j < |pool|
        ensures Runnable(pool[j]) && (HasArray(kept + tail, pool[j].instances) <==> !Ends(sounds, pool[j], dt))
      {
        HasArrayAppend(kept, tail, pool[j].instances);
        if j == 0 {
          if HasArray(tail, s.instances) {
            TickPoolArrays(sounds, back, dt, s.instances);
            HasArrayIds(back, s.instances.value);
            assert false;
          }
        } else {
          assert pool[j] == back[j - 1];
          if kept != [] && kept[0].instances == pool[j].instances {
            assert HasArray(back, s.instances) by {
              HasArrayAt(back, j - 1);
            }
            HasArrayIds(back, s.instances.value);
            assert false;
          }
        }
      }
    }
  }

  lemma {:induction false} HasArrayAt(pool: seq<SegState>, k: nat)
    requires k < |pool|
    ensures HasArray(pool, pool[k].instances)
  {
    if k > 0 {
      HasArrayAt(pool[1..], k - 1);
    }
  }

  /** A tick without an almost-end notification removes a primary state exactly when its
      segment is over: its last started instance runs out and none of its instances passes its
      half. */
  lemma UpdateRemovesExactlyEnded(st: MusicState, dt: nat)
    requires PlainTick(st.sounds, st.primary, dt)
    ensures Update(st, dt).Returned?
    ensures forall j :: 0 <= j < |st.primary| ==>
              Runnable(st.primary[j])
              && (HasArray(Update(st, dt).st.primary, st.primary[j].instances) <==> !Ends(st.sounds, st.primary[j], dt))
  {
    UpdatePlainTick(st, dt);
    TickPoolKeepsExactly(st.sounds, st.primary, dt);
  }
}
