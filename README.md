# A verified model of the NOLF2 engine's dynamic music manager, OpenAL driver pieces and vector-font texture builder

This project models four parts of the engine's runtime in Dafny and proves properties of the models.

- **The dynamic-music sequencer `CLTDirectMusicMgr`** (`genericmusic_impl.cpp`).
  - A level defines intensities, and each intensity has a playlist of segments. A matrix of
    transitions links pairs of intensities.
  - The manager keeps two command queues: the primary queue drives the intensity's playlist,
    and the secondary queue holds segments waiting for the next segment boundary.
  - It keeps three pools of playing segment states: the primary pool, secondary segments and
    motifs.
  - A timer update counts the sound instances down. It starts each next instance halfway
    through the current one, and reports when a segment is almost over and when it is over.
  - Module `MusicTypes` holds the data. Module `MusicSpec` states what every operation does to
    the manager's state as a value.
  - Module `MusicManager` holds class `DirectMusicMgr`. Its fields are the manager's fields, and
    its methods change them in place. Each method is proved to leave the state, and to report the
    outcome, that `MusicSpec` gives.
  - Module `MusicProps` proves the sequencer's properties on those functions.
- **The OpenAL sound driver** (`openal.cpp`):
  - the IMA ADPCM block and stream decoders (`Adpcm`);
  - the RIFF/WAVE chunk walker (`WaveFile`);
  - the per-sample and per-3D-object user-data slots, and the 3D-provider enumerator
    (`SoundSys`).
- **The Linux vector-font texture builder** (`cuivectorfont.cpp`, module `VectorFont`):
  - rounding a size up to a power of two;
  - `MulDiv`;
  - the texture size estimate;
  - the pitch and initial fill of the pixel data;
  - the glyph layout loop that fills the font table and character map;
  - the glyph bitmap copy into ARGB4444 texels.
- **The helpers of `NOLF2/Shared/Globals.h`** (`Globals`): `PtInRect`, `CRange`, `MinAbs`,
  `MaxAbs` and `Clamp`.

C integer behaviour is written out in `Common`: wrap-around to 16 and 32 bits, truncating
division and little-endian words.

Operations that would never return in the program produce an explicit outcome: `Hangs` in the
specification, reported as `Diverged` by the methods. So do reads of freed or missing memory
(`Fault`, reported as `Faulted`). This covers `Stop` while paused, a primary queue whose
LoopToStart never lets the walk halt, and stop loops that keep finding a state they do not
remove.

## Model

| member | source | states |
|---|---|---|
| Globals.PtInRect | NOLF2/Shared/Globals.h:26-33 | a point is inside exactly when left <= x < right and top <= y < bottom (half-open) |
| Globals.EmptyRectHoldsNothing | NOLF2/Shared/Globals.h:26-33 | a rectangle with no width or no height contains no point |
| Globals.SplitColumns | NOLF2/Shared/Globals.h:26-33 | splitting a rectangle at a column gives two disjoint halves whose union is the rectangle |
| Globals.CRange.constructor | NOLF2/Shared/Globals.h:43 | the new range reads back the bounds it was built with |
| Globals.CRange.Set | NOLF2/Shared/Globals.h:45-48 | after Set, GetMin and GetMax return the new bounds |
| Globals.MinAbs | NOLF2/Shared/Globals.h:58-62 | returns one of the two arguments, the one of smaller magnitude; on a tie, the second |
| Globals.MaxAbs | NOLF2/Shared/Globals.h:64-68 | returns one of the two arguments, the one of greater magnitude; on a tie, the second |
| Globals.MinMaxAbsSplit | NOLF2/Shared/Globals.h:58-68 | when the magnitudes differ, MinAbs and MaxAbs together return both arguments |
| Globals.Clamp | NOLF2/Shared/Globals.h:70-74 | the result lies in [lo, hi]; a value already inside is kept; an empty interval gives hi |
| Globals.ClampNearest | NOLF2/Shared/Globals.h:70-74 | clamping is idempotent and gives the point of [lo, hi] nearest to the value |
| VectorFont.PowerOfTwoFromIsLeast | runtime/ui/src/sys/linux/cuivectorfont.cpp:219-229 | doubling from a power of two ends at the least power of two that is at least both the start and the wanted size |
| VectorFont.GetPowerOfTwo | runtime/ui/src/sys/linux/cuivectorfont.cpp:219-229 | returns the least power of two that is at least 32 and at least the value, without 32-bit overflow |
| VectorFont.TextureDimensionCovers | runtime/ui/src/sys/linux/cuivectorfont.cpp:219-229 | the texture dimension chosen is never smaller than the size asked for |
| VectorFont.MulDiv | runtime/ui/src/sys/linux/cuivectorfont.cpp:290-293 | a 32-bit result; for a non-negative product and a positive denominator, the quotient rounded to nearest with halves up |
| VectorFont.AlphaIsMulDiv | runtime/ui/src/sys/linux/cuivectorfont.cpp:306 | the glyph copy's alpha is MulDiv(coverage, 15, 255) |
| VectorFont.AlphaRange | runtime/ui/src/sys/linux/cuivectorfont.cpp:290-293 | alpha is 0..15, 0 for no coverage, 15 for full coverage, and monotone in coverage |
| VectorFont.SetAlpha | runtime/ui/src/sys/linux/cuivectorfont.cpp:308 | the texel's colour bits are kept and its alpha nibble becomes the given alpha |
| VectorFont.CopyGlyphBitmapToPixelData | runtime/ui/src/sys/linux/cuivectorfont.cpp:295-311 | the texture after the copy is the row-by-row copy of the glyph bitmap at the given offset |
| VectorFont.CopyGlyphRow | runtime/ui/src/sys/linux/cuivectorfont.cpp:304-309 | the texture after one glyph row is that row copied |
| VectorFont.CopyKeepsColour | runtime/ui/src/sys/linux/cuivectorfont.cpp:295-311 | copying a glyph never changes the colour bits of any texel |
| VectorFont.CopyPlacesAlpha | runtime/ui/src/sys/linux/cuivectorfont.cpp:295-311 | glyph pixel (i, j) sets the alpha of texture texel (i, j) to that pixel's alpha when glyph rows fit in texture rows |
| VectorFont.CopyKeepsOutside | runtime/ui/src/sys/linux/cuivectorfont.cpp:295-311 | texels above the glyph, below it, or to its right in a glyph row are left as they were |
| VectorFont.RowKeepsOthers | runtime/ui/src/sys/linux/cuivectorfont.cpp:304-309 | a row copy leaves every texel outside its destination span alone |
| VectorFont.RowSetsAlpha | runtime/ui/src/sys/linux/cuivectorfont.cpp:304-309 | a row copy sets the alpha of each destination texel from its bitmap byte |
| VectorFont.PixelDataPitch | runtime/ui/src/sys/linux/cuivectorfont.cpp:450 | the pitch is a multiple of four bytes and between 2*width and 2*width+3 |
| VectorFont.NewPixelData | runtime/ui/src/sys/linux/cuivectorfont.cpp:450-473 | the pixel data holds pitch*height bytes of 16-bit texels, each white and fully transparent (0x0FFF) |
| VectorFont.LayoutRows | runtime/ui/src/sys/linux/cuivectorfont.cpp:487-493 | the running y offset is the row height times the number of rows started |
| VectorFont.LayoutXIgnoresRowHeight | runtime/ui/src/sys/linux/cuivectorfont.cpp:487-493 | the x coordinates of the layout do not depend on the row height |
| VectorFont.GlyphInsideRow | runtime/ui/src/sys/linux/cuivectorfont.cpp:487-493 | each glyph starts a row or ends, spacing included, short of the texture width |
| VectorFont.GlyphsDoNotOverlap | runtime/ui/src/sys/linux/cuivectorfont.cpp:480-527 | glyphs are laid out in reading order without overlapping |
| VectorFont.MapEntryIsLastGlyph | runtime/ui/src/sys/linux/cuivectorfont.cpp:496-497 | the character map sends a character to the last glyph drawn for it (index mod 256), other entries unchanged |
| VectorFont.GlyphRowByteOffset | runtime/ui/src/sys/linux/cuivectorfont.cpp:515-519 | the copy offset is 0 or inside the pixel data |
| VectorFont.TableEntryFields | runtime/ui/src/sys/linux/cuivectorfont.cpp:500-506 | a glyph's three table entries are its width with spacing, its x offset and its y offset, as uint16 |
| VectorFont.RecordGlyph | runtime/ui/src/sys/linux/cuivectorfont.cpp:500-506 | writes glyph g's three table entries and no other entry |
| VectorFont.MapGlyph | runtime/ui/src/sys/linux/cuivectorfont.cpp:496-497 | the character map after glyph g is the map of the first g+1 characters |
| VectorFont.LayoutGlyphs | runtime/ui/src/sys/linux/cuivectorfont.cpp:480-527 | every glyph's table entries hold its layout, the map holds each character's last glyph, the copy offsets are reported, and later table entries are kept |
| VectorFont.GetTextureSizeFromCharSizes | runtime/ui/src/sys/linux/cuivectorfont.cpp:245-288 | both sides are powers of two at least 32, and the corrected height holds every glyph the layout places |
| VectorFont.CorrectedEstimateFollowsLayout | runtime/ui/src/sys/linux/cuivectorfont.cpp:245-288 | the corrected size walk ends where the layout does, with one break per row started |
| VectorFont.CorrectedHeightHoldsEveryGlyph | runtime/ui/src/sys/linux/cuivectorfont.cpp:245-288 | with the corrected walk, every glyph's row lies inside the chosen texture height |
| VectorFont.EstimateAsWritten | runtime/ui/src/sys/linux/cuivectorfont.cpp:261-284 | the size walk as written breaks a row at most once per glyph and leaves its row position inside the texture width, or at 0 |
| VectorFont.HeightAsWrittenTooSmall | runtime/ui/src/sys/linux/cuivectorfont.cpp:277-283 | three 40-wide glyphs in a 64-wide texture: the walk as written sizes the texture 32 high but the third glyph lands at y = 32 |
| Adpcm.MagnitudeApproximatesStep | runtime/sound/src/sys/openal/openal.cpp:101-106 | the shift-and-add difference rounds the exact IMA reconstruction (2m+1)*step/8 down by less than three |
| Adpcm.DecodeNibbleDirection | runtime/sound/src/sys/openal/openal.cpp:100-128 | a code moves the sample in the direction of its sign bit and adjusts the step index by the index table, clipped to 0..88 |
| Adpcm.HeaderValidIsSignedTest | runtime/sound/src/sys/openal/openal.cpp:81-90 | the header test is the source's test on the signed step index and on the reserved byte |
| Adpcm.FirstBadHeader | runtime/sound/src/sys/openal/openal.cpp:81-90 | the first channel whose header is rejected, with all the channels before it accepted |
| Adpcm.BlockResult | runtime/sound/src/sys/openal/openal.cpp:72-137 | the result is 0 exactly for a short block or a rejected header; an accepted block fills exactly its frames' slots, the headers first |
| Adpcm.BlockSamplesFormula | runtime/sound/src/sys/openal/openal.cpp:92-93 | an accepted block decodes 1 + 8*((size - 4c) / 4c) frames |
| Adpcm.DecodedStep | runtime/sound/src/sys/openal/openal.cpp:100-128 | a channel's predictors start at its header and take one decoding step per code |
| Adpcm.CodeOfByte | runtime/sound/src/sys/openal/openal.cpp:100-128 | each code byte gives two codes of its channel, the low nibble first |
| Adpcm.DecodeHeaders | runtime/sound/src/sys/openal/openal.cpp:81-90 | each header's sample is stored before the header is checked; the predictors are returned exactly when every header is accepted |
| Adpcm.DecodeChunk | runtime/sound/src/sys/openal/openal.cpp:92-128 | one chunk fills the next eight frames of every channel with their decoded samples and advances the predictors |
| Adpcm.DecodeChannelChunk | runtime/sound/src/sys/openal/openal.cpp:100-128 | one channel's four code bytes fill its next eight frames, c slots apart |
| Adpcm.DecodeBlock | runtime/sound/src/sys/openal/openal.cpp:72-137 | returns the block's frame count (0 when rejected) and leaves every output slot as the block decoder defines it |
| Adpcm.SamplesPerBlockValues | runtime/sound/src/sys/openal/openal.cpp:142 | samples per block is 2*size - 7 for mono and size - 7 for stereo |
| Adpcm.NextBlock | runtime/sound/src/sys/openal/openal.cpp:155-164 | the next block consumes bytes and keeps at most the frames that remain and at most the frames it decodes |
| Adpcm.FullBlockMatches | runtime/sound/src/sys/openal/openal.cpp:142 | an aligned, accepted full block decodes exactly samples_per_block frames |
| Adpcm.LastBlockMatches | runtime/sound/src/sys/openal/openal.cpp:159-164 | the recomputed last block holds the fewest 1 + 8k frames covering what remains and decodes exactly that many |
| Adpcm.AdvanceAsWritten | runtime/sound/src/sys/openal/openal.cpp:176 | the output advance as written is one slot per frame: right for mono, short of the frames' slots for stereo |
| Adpcm.StereoBlocksOverlap | runtime/sound/src/sys/openal/openal.cpp:176 | stereo, 16-byte blocks, 18 frames: the second block is decoded over the first block's second half |
| Adpcm.FinalBlockOverruns | runtime/sound/src/sys/openal/openal.cpp:159-166 | mono, 8-byte blocks, 2 frames: the last block writes 9 frames into room for 2 |
| Adpcm.LastBlockOverrunsOutput | runtime/sound/src/sys/openal/openal.cpp:159-166 | every last block not holding exactly 1 + 8k frames writes past the remaining output as written |
| Adpcm.LastBlockExceedsScratch | runtime/sound/src/sys/openal/openal.cpp:144-166 | mono, 9-byte blocks and 10 frames: the recomputed last block is 12 bytes, larger than the block_size-byte copy buffer |
| Adpcm.BlockStep | runtime/sound/src/sys/openal/openal.cpp:155-176 | a loop pass succeeds only when its block lies in the input, and keeps c samples per kept frame |
| Adpcm.DataSpec | runtime/sound/src/sys/openal/openal.cpp:139-183 | the decoding of a stream has c samples per frame, or is None when a block runs past the input or decodes to another frame count |
| Adpcm.DataFromStep | runtime/sound/src/sys/openal/openal.cpp:155-176 | an accepted block moves the frames it keeps from the rest of the decoding to the decoded prefix |
| Adpcm.StereoSevenByteBlocksNeverFinish | runtime/sound/src/sys/openal/openal.cpp:142-176 | stereo 7-byte blocks decode zero frames each, so the decoder walks off the end of the input |
| Adpcm.CopySlots | runtime/sound/src/sys/openal/openal.cpp:169-176 | the copy appends the decoded samples after the output already written |
| Adpcm.DecodeAside | runtime/sound/src/sys/openal/openal.cpp:166-171 | the block copied into the scratch buffer and decoded there yields its frame count and its samples in output order |
| Adpcm.DecodeNextBlock | runtime/sound/src/sys/openal/openal.cpp:155-176 | one pass succeeds exactly when the block step does, and appends the samples it keeps; a failed pass leaves the output position where it was |
| Adpcm.LoopStepDecodes | runtime/sound/src/sys/openal/openal.cpp:155-176 | a rejected block makes the whole decoding fail; an accepted block stays within the input and moves the decoded prefix on |
| Adpcm.DecodeLoopStep | runtime/sound/src/sys/openal/openal.cpp:155-176 | one pass keeps the decoder's loop invariant, or shows the whole decoding fails |
| Adpcm.DecodeData | runtime/sound/src/sys/openal/openal.cpp:139-183 | returns null exactly when the stream cannot be decoded, and otherwise exactly the decoded samples |
| WaveFile.ChunkStep | runtime/sound/src/sys/openal/openal.cpp:1603-1668 | a walker step that continues moves at least one word forward |
| WaveFile.ParseWaveFile | runtime/sound/src/sys/openal/openal.cpp:1585-1675 | the loop's result is the chunk walk from offset 0 without a format |
| WaveFile.ParseResult | runtime/sound/src/sys/openal/openal.cpp:1585-1675 | success exactly when both pointers were found; each reported pointer sits right after the id and size of a chunk of its kind |
| WaveFile.UnknownChunkRejected | runtime/sound/src/sys/openal/openal.cpp:1665-1668 | an unknown chunk id ends the walk with false, keeping the format found so far |
| WaveFile.PassChunk | runtime/sound/src/sys/openal/openal.cpp:1603-1663 | the walker steps over a RIFF header, the WAVE tag or a sized chunk, recording the body of a format chunk |
| WaveFile.ParseChunks | runtime/sound/src/sys/openal/openal.cpp:1603-1663 | walking passable chunks and then a data chunk stops at the data body with the last format body, succeeding exactly when there was one |
| WaveFile.ParseEncoded | runtime/sound/src/sys/openal/openal.cpp:1585-1675 | round trip: the encoded image of chunks walks back to the data chunk's body and the last format chunk's body |
| WaveFile.ParseCanonical | runtime/sound/src/sys/openal/openal.cpp:1585-1675 | a RIFF, WAVE, fmt, data image parses with the format at byte 20 and the data after it |
| SoundSys.CSample.constructor | runtime/sound/src/sys/openal/openal.cpp:309-324 | a new sample has MAX_USER_DATA_INDEX + 1 slots, all zero |
| SoundSys.I3DObject.constructor | runtime/sound/src/sys/openal/openal.cpp:536-542 | a new 3D object has MAX_USER_DATA_INDEX + 1 slots, all zero |
| SoundSys.GetSampleUserData | runtime/sound/src/sys/openal/openal.cpp:2069-2076 | an S32 value; 0 for a null handle or an index past the last slot |
| SoundSys.SetSampleUserData | runtime/sound/src/sys/openal/openal.cpp:1978-1985 | the slot then reads back the value truncated to S32; every other slot and every invalid call change nothing |
| SoundSys.Get3DUserData | runtime/sound/src/sys/openal/openal.cpp:1465-1472 | an S32 value; 0 for a null handle or an index past the last slot |
| SoundSys.Set3DUserData | runtime/sound/src/sys/openal/openal.cpp:1444-1451 | the slot then reads back the value truncated to S32; every other slot and every invalid call change nothing |
| SoundSys.Enumerate3DProviders | runtime/sound/src/sys/openal/openal.cpp:1371-1394 | the cursor advances by one; the call reports the one provider at cursor 0 and returns 0 exactly at the end, clearing the name |
| SoundSys.EnumerateFromStart | runtime/sound/src/sys/openal/openal.cpp:1371-1394 | enumerating from a zero cursor yields exactly one provider, under its DirectSound name |
| MusicSpec.FindByArray | runtime/kernel/src/genericmusic_impl.cpp:2181-2202 | the first state playing the array, or none when no state plays it |
| MusicSpec.FindByName | runtime/kernel/src/genericmusic_impl.cpp:2144-2179 | the first state whose segment has the name, ignoring case; a null name finds nothing |
| MusicSpec.FindSegment | runtime/kernel/src/genericmusic_impl.cpp:2114-2142 | the first segment with the name, ignoring case; a null name finds nothing |
| MusicSpec.FirstPlayable | runtime/kernel/src/genericmusic_impl.cpp:1150-1177 | the first playlist segment with an instance array, or none when there is none |
| MusicSpec.PlayInstance | runtime/kernel/src/genericmusic_impl.cpp:2576-2594 | succeeds exactly when the instance has a sample; it then rewinds the timer and, when asked to, forgets the previous intensity; otherwise nothing changes |
| MusicSpec.CreateSegmentState | runtime/kernel/src/genericmusic_impl.cpp:2426-2449 | the pool gains one state at its head, for the array with its first instance started |
| MusicSpec.StartArray | runtime/kernel/src/genericmusic_impl.cpp:1271-1274 | starting an array leaves the queues, cursor, level, intensity and pause count as they were |
| MusicSpec.CleanupSegmentState | runtime/kernel/src/genericmusic_impl.cpp:2471-2536 | the pool loses exactly the given state |
| MusicSpec.TransitionIndex | runtime/kernel/src/genericmusic_impl.cpp:2333-2348 | an index into the matrix: the computed entry whenever both intensities are in range and the entry lies inside the matrix, and 0 otherwise |
| MusicSpec.TransitionHasOwnEntry | runtime/kernel/src/genericmusic_impl.cpp:687 | with the matrix a level builds, every pair of real intensities has its own entry, never entry 0 |
| MusicSpec.Pause | runtime/kernel/src/genericmusic_impl.cpp:975-993 | succeeds exactly on an initialised manager and level, adding one to the pause count; otherwise nothing changes |
| MusicSpec.PauseIsPermanent | runtime/kernel/src/genericmusic_impl.cpp:995-1022 | after a successful Pause, UnPause always fails and changes nothing |
| MusicSpec.UnPauseAll | runtime/kernel/src/genericmusic_impl.cpp:930-931 | leaves the manager unpaused when it returns |
| MusicSpec.ClearCommands | runtime/kernel/src/genericmusic_impl.cpp:2308-2331 | empties both command queues |
| MusicSpec.StopEmptiesEverything | runtime/kernel/src/genericmusic_impl.cpp:919-973 | Stop on an unpaused, initialised manager empties both queues and all three pools, clears the cursor and changes nothing else |
| MusicSpec.StopHangsWhenPaused | runtime/kernel/src/genericmusic_impl.cpp:919-931 | Stop on a paused, initialised manager never returns |
| MusicSpec.UnPauseCorrected | runtime/kernel/src/genericmusic_impl.cpp:995-1022 | with the guards corrected, UnPause succeeds exactly on an initialised manager and level with a pause to lift, lifting one |
| MusicSpec.UnPauseUndoesPause | runtime/kernel/src/genericmusic_impl.cpp:975-1022 | with the corrected UnPause, a successful Pause followed by UnPause gives back the manager as it was |
| MusicSpec.SegEndRemovesFirstOwner | runtime/kernel/src/genericmusic_impl.cpp:386-430 | a segment end removes exactly the first state of the array in the first pool holding it (primary, secondary, motif) and nothing else |
| MusicSpec.QueuedItems | runtime/kernel/src/genericmusic_impl.cpp:1180-1198 | the queued items are PlaySegment items of playable playlist segments, and every playable segment is queued |
| MusicSpec.StartFirst | runtime/kernel/src/genericmusic_impl.cpp:1121-1177 | what is started before queueing leaves both queues and the level alone, and reports where queueing starts |
| MusicSpec.LoopBudgetDecrement | runtime/kernel/src/genericmusic_impl.cpp:180-215 | counting a positive LoopToStart down lowers the walk's remaining loop budget by one |
| MusicSpec.DispatchPasses | runtime/kernel/src/genericmusic_impl.cpp:262-317 | the walk passes over an item that neither loops nor halts |
| MusicSpec.DispatchLoopDone | runtime/kernel/src/genericmusic_impl.cpp:180-215 | the walk passes over a LoopToStart whose count has run out |
| MusicSpec.DispatchLoopCountsDown | runtime/kernel/src/genericmusic_impl.cpp:180-215 | a positive LoopToStart is counted down and sends the walk to the head, or on when it reaches 0 |
| MusicSpec.DispatchLoopForever | runtime/kernel/src/genericmusic_impl.cpp:180-215 | a negative LoopToStart sends the walk back once when a halting item precedes it, and otherwise the walk never ends |
| MusicSpec.RunItem | runtime/kernel/src/genericmusic_impl.cpp:333-373 | executing a secondary-queue item leaves the secondary queue alone |
| MusicSpec.Drain | runtime/kernel/src/genericmusic_impl.cpp:326-383 | running the secondary queue leaves it empty |
| MusicSpec.PoolOutcome | runtime/kernel/src/genericmusic_impl.cpp:1298-1368 | a stop loop that ends succeeds with the pool it leaves |
| MusicProps.ExtendsKeepsPosition | runtime/kernel/src/genericmusic_impl.cpp:2705-2738 | adding states at a pool's head keeps every state at the same distance from the pool's end |
| MusicProps.StartArrayExtends | runtime/kernel/src/genericmusic_impl.cpp:2426-2449 | starting an array only adds a state at the head of its own pool, leaving the other pools as they were |
| MusicProps.ChangeIntensityExtends | runtime/kernel/src/genericmusic_impl.cpp:1054-1239 | a successful intensity change adds at most a state at the head of the primary pool |
| MusicProps.DispatchExtends | runtime/kernel/src/genericmusic_impl.cpp:176-322 | a halting walk of the primary queue only adds states at the head of the primary pool |
| MusicProps.RunItemExtends | runtime/kernel/src/genericmusic_impl.cpp:333-373 | a secondary-queue item leaves the primary queue, cursor and primary pool alone, and only adds at the heads of the other pools |
| MusicProps.DrainKeepsPrimary | runtime/kernel/src/genericmusic_impl.cpp:326-383 | running the secondary queue leaves the primary queue, cursor and primary pool alone, and only adds at the heads of the other pools |
| MusicProps.AlmostEndOnlyPrepends | runtime/kernel/src/genericmusic_impl.cpp:116-384 | an almost-end notification that returns has only added states at the head of the primary pool |
| MusicProps.PlaySecondaryResult | runtime/kernel/src/genericmusic_impl.cpp:1241-1296 | PlaySecondary returns LtOk or LtError; LtError exactly when the manager or level is not initialised, the name is not found, or the segment has no instance array; LtError leaves the state as it was |
| MusicProps.PlayMotifResult | runtime/kernel/src/genericmusic_impl.cpp:1370-1426 | the same for PlayMotif and the motif list |
| MusicProps.PlayOrQueueDefers | runtime/kernel/src/genericmusic_impl.cpp:1284-1292 | a segment for the next segment boundary only puts a play item at the head of the secondary queue, which grows by one |
| MusicProps.DeferredPlayMatchesNow | runtime/kernel/src/genericmusic_impl.cpp:333-373 | the queued play item, when run, starts the segment in its pool as playing it at once does |
| MusicProps.PlayOrQueueStarts | runtime/kernel/src/genericmusic_impl.cpp:1266-1283 | playing at once returns LtOk; only pool p and the instance timers change; pool p only gains states at its head, and gains exactly one, the segment's state with one instance started, when its first instance has a sample |
| MusicProps.StartArrayCounts | runtime/kernel/src/genericmusic_impl.cpp:1271-1274 | starting an array adds one state to its pool exactly when the first instance has a sample, and keeps the instance table's keys |
| MusicProps.ChangeIntensityGuards | runtime/kernel/src/genericmusic_impl.cpp:1077-1119 | each guard in order: unready, intensity 0 (stops the music; never returns while paused), out of range, already current, or enter |
| MusicProps.EnterIntensityQueue | runtime/kernel/src/genericmusic_impl.cpp:1180-1233 | the queue built holds the playable playlist items in playlist order, from the segment started first (from the head when a transition is started), then LoopToStart (-1 when the intensity follows itself), then the follow-on change exactly when there is one |
| MusicProps.EnterIntensityStartsFirst | runtime/kernel/src/genericmusic_impl.cpp:1099-1204 | the transition or the first playable segment is started first, with the cursor null or on that segment |
| MusicProps.LoopReplaysFromHead | runtime/kernel/src/genericmusic_impl.cpp:180-215 | a LoopToStart that still loops restarts the head segment and rests the cursor on it; a negative count is kept and a positive one counted down |
| MusicProps.AlmostEndIgnored | runtime/kernel/src/genericmusic_impl.cpp:118-157 | notifications about secondary segments, motifs or any array but the latest primary one change nothing |
| MusicProps.RunItemCounts | runtime/kernel/src/genericmusic_impl.cpp:333-373 | an item adds one state to its pool exactly when its array can be started |
| MusicProps.DrainStartsEveryItem | runtime/kernel/src/genericmusic_impl.cpp:326-383 | running the secondary queue starts one state for each item whose array can be started, in that item's pool |
| MusicProps.AlmostEndRunsSecondaryQueue | runtime/kernel/src/genericmusic_impl.cpp:116-384 | a notification that passes the guards halts the walk, leaves the cursor there and runs the whole secondary queue |
| MusicProps.StopAllFrom | runtime/kernel/src/genericmusic_impl.cpp:1313-1335 | the stop-all walk from index k keeps the first k states and then exactly the states that are to play to their end |
| MusicProps.StopAllKeepsWaiting | runtime/kernel/src/genericmusic_impl.cpp:1313-1335 | stopping a whole pool keeps exactly the states that are to play to their end, in order |
| MusicProps.StopAllHangsOnNullArray | runtime/kernel/src/genericmusic_impl.cpp:1313-1335 | the stop-all walk never ends once it reaches a state without an instance array |
| MusicProps.UnnamedKeepsOthers | runtime/kernel/src/genericmusic_impl.cpp:1339-1366 | what a stop by name keeps is exactly the pool's states not of that name |
| MusicProps.UnnamedRemove | runtime/kernel/src/genericmusic_impl.cpp:1339-1366 | removing a named state leaves the unnamed states as they were |
| MusicProps.StopByNameRemovesNamed | runtime/kernel/src/genericmusic_impl.cpp:1339-1366 | when every state of the name can be stopped, a stop by name removes exactly those states |
| MusicProps.StopByNameHangs | runtime/kernel/src/genericmusic_impl.cpp:1339-1366 | a stop by name never ends when the first named state is not removed |
| MusicProps.EnactNameRoundTrip | runtime/kernel/src/genericmusic_impl.cpp:2596-2667 | reading back the name an enact type is written under gives that enact type |
| MusicProps.EnactNamesIgnoreCase | runtime/kernel/src/genericmusic_impl.cpp:2648-2667 | enact names are read without regard to case |
| MusicProps.SameNameSameEnact | runtime/kernel/src/genericmusic_impl.cpp:2648-2667 | two names differing only in case name the same enact type |
| MusicProps.UpdateRunsTimerDown | runtime/kernel/src/genericmusic_impl.cpp:2712-2719 | a tick that neither passes the half nor runs out only lowers that instance's timer by dt |
| MusicProps.UpdateStartsNextInstance | runtime/kernel/src/genericmusic_impl.cpp:2719-2725 | passing the half of an instance with more to come starts the next instance and counts it |
| MusicProps.UpdateEndsSegment | runtime/kernel/src/genericmusic_impl.cpp:2732-2735 | an instance past its half that runs out, the last started one, removes its state |
| MusicTick.StepMissing | runtime/kernel/src/genericmusic_impl.cpp:2714-2716 | an instance missing from the instance table is passed over, and nothing changes |
| MusicTick.StepHalf | runtime/kernel/src/genericmusic_impl.cpp:2716-2730 | an instance that passes its half runs down, the state counts one more started instance and the next instance starts |
| MusicTick.StepRunsDown | runtime/kernel/src/genericmusic_impl.cpp:2716-2735 | an instance that does not pass its half, and does not end its segment, only runs down |
| MusicTick.StepEnds | runtime/kernel/src/genericmusic_impl.cpp:2716-2735 | an instance that does not pass its half, is the last one started, runs out while nothing of its state has passed a half, runs down and its state is removed |
| MusicTick.VisitRest | runtime/kernel/src/genericmusic_impl.cpp:2712-2736 | the instance loop over a state's started instances ends where VisitResult says: each run down, one more started instance per half passed, the state removed when its segment is over |
| MusicTick.VisitStates | runtime/kernel/src/genericmusic_impl.cpp:2706-2739 | the state loop over the states still to be updated leaves the instance table and pool a plain tick gives |
| MusicTick.UpdatePlainTick | runtime/kernel/src/genericmusic_impl.cpp:2694-2740 | a tick without an almost-end notification over states that share no instance returns LtOk, runs every started instance down by dt, restarts the next instance of each state that passed a half, and leaves the pool TickPool gives; nothing else changes |
| MusicTick.UpdateQuietTick | runtime/kernel/src/genericmusic_impl.cpp:2712-2719 | a tick in which no instance passes its half and no segment ends only lowers every started instance's timer by dt, stopping at 0 |
| MusicTick.TickPoolKeepsExactly | runtime/kernel/src/genericmusic_impl.cpp:2732-2735 | a state stays in the pool after a plain tick if and only if its segment is not over |
| MusicTick.UpdateRemovesExactlyEnded | runtime/kernel/src/genericmusic_impl.cpp:2694-2740 | Update keeps a primary state if and only if its last started instance does not run out, or one of its instances passes its half |
| MusicManager.FindStateByArray | runtime/kernel/src/genericmusic_impl.cpp:2181-2202 | the loop finds what FindByArray specifies |
| MusicManager.FindStateByName | runtime/kernel/src/genericmusic_impl.cpp:2144-2179 | the loop finds what FindByName specifies |
| MusicManager.FindSegmentNamed | runtime/kernel/src/genericmusic_impl.cpp:2114-2142 | the loop finds what FindSegment specifies |
| MusicManager.DirectMusicMgr.constructor | runtime/kernel/src/genericmusic_impl.cpp:432-458 | a manager after construction, Init and a successful InitLevel, with both flags set: nothing queued or playing, no cursor, not paused, intensity 0 |
| MusicManager.DirectMusicMgr.SetPool | runtime/kernel/src/genericmusic_impl.cpp:2426-2536 | replaces one pool and nothing else |
| MusicManager.DirectMusicMgr.PlayInstance | runtime/kernel/src/genericmusic_impl.cpp:2576-2594 | the result and new state are MusicSpec.PlayInstance's |
| MusicManager.DirectMusicMgr.CreateSegmentState | runtime/kernel/src/genericmusic_impl.cpp:2426-2449 | the new state is MusicSpec.CreateSegmentState's |
| MusicManager.DirectMusicMgr.StartArray | runtime/kernel/src/genericmusic_impl.cpp:1271-1274 | the new state is MusicSpec.StartArray's |
| MusicManager.DirectMusicMgr.CleanupSegmentState | runtime/kernel/src/genericmusic_impl.cpp:2471-2536 | the new state is MusicSpec.CleanupSegmentState's |
| MusicManager.DirectMusicMgr.CleanupSegmentStates | runtime/kernel/src/genericmusic_impl.cpp:2451-2469 | the pool is emptied and nothing else changes |
| MusicManager.DirectMusicMgr.ClearCommands | runtime/kernel/src/genericmusic_impl.cpp:2308-2331 | both queues are emptied and nothing else changes |
| MusicManager.DirectMusicMgr.Pause | runtime/kernel/src/genericmusic_impl.cpp:975-993 | result and state as MusicSpec.Pause gives |
| MusicManager.DirectMusicMgr.UnPause | runtime/kernel/src/genericmusic_impl.cpp:995-1022 | result and state as MusicSpec.UnPause gives |
| MusicManager.DirectMusicMgr.Stop | runtime/kernel/src/genericmusic_impl.cpp:919-973 | status and state as MusicSpec.Stop gives, Diverged where Stop never returns |
| MusicManager.DirectMusicMgr.StartFirstItem | runtime/kernel/src/genericmusic_impl.cpp:1121-1177 | state and queue start as MusicSpec.StartFirst gives |
| MusicManager.DirectMusicMgr.QueuePlaylist | runtime/kernel/src/genericmusic_impl.cpp:1180-1198 | the primary queue gains the playlist's playable items, and nothing else changes |
| MusicManager.DirectMusicMgr.QueueIntensity | runtime/kernel/src/genericmusic_impl.cpp:1180-1233 | the state is MusicSpec.QueueIntensity's |
| MusicManager.DirectMusicMgr.EnterIntensity | runtime/kernel/src/genericmusic_impl.cpp:1099-1233 | the state is MusicSpec.EnterIntensity's |
| MusicManager.DirectMusicMgr.ChangeIntensity | runtime/kernel/src/genericmusic_impl.cpp:1054-1239 | status and state as MusicSpec.ChangeIntensity gives |
| MusicManager.DirectMusicMgr.RunHaltingCommand | runtime/kernel/src/genericmusic_impl.cpp:217-302 | status, state and cursor as the walk specification gives at a halting item |
| MusicManager.DirectMusicMgr.RunCommands | runtime/kernel/src/genericmusic_impl.cpp:160-322 | status, state and cursor as the walk specification (Dispatch) gives, Diverged for a walk that never halts |
| MusicManager.DirectMusicMgr.RunItem | runtime/kernel/src/genericmusic_impl.cpp:333-373 | the state is MusicSpec.RunItem's |
| MusicManager.DirectMusicMgr.RunSecondaryCommands | runtime/kernel/src/genericmusic_impl.cpp:326-383 | the state is that of Drain |
| MusicManager.DirectMusicMgr.SegAlmostEnd | runtime/kernel/src/genericmusic_impl.cpp:116-384 | status and state as AlmostEnd gives |
| MusicManager.DirectMusicMgr.SegEnd | runtime/kernel/src/genericmusic_impl.cpp:386-430 | the state is MusicSpec.SegEnd's |
| MusicManager.DirectMusicMgr.PlayOrQueue | runtime/kernel/src/genericmusic_impl.cpp:1266-1293 | fails exactly on a segment without an instance array, changing nothing; a segment for the next segment boundary only puts its play item at the head of the secondary queue; otherwise only pool p and the instance timers change, and pool p only gains states at its head |
| MusicManager.DirectMusicMgr.PlaySecondary | runtime/kernel/src/genericmusic_impl.cpp:1241-1296 | returns LtOk or LtError, and LtError exactly when the manager or level is not initialised, no secondary segment has the name, or the one found has no instance array; a failing call changes nothing |
| MusicManager.DirectMusicMgr.PlayMotif | runtime/kernel/src/genericmusic_impl.cpp:1370-1426 | returns LtOk or LtError, and LtError exactly when the manager or level is not initialised, no motif has the name, or the one found has no instance array; a failing call changes nothing |
| MusicManager.DirectMusicMgr.StopAllStep | runtime/kernel/src/genericmusic_impl.cpp:1313-1335 | one pass of the stop-all loop ends the walk (never returning or faulting) or keeps the rest of the walk's outcome while making progress |
| MusicManager.DirectMusicMgr.StopAllStates | runtime/kernel/src/genericmusic_impl.cpp:1313-1335 | status and pool as the stop-all walk gives |
| MusicManager.DirectMusicMgr.StopNamedStates | runtime/kernel/src/genericmusic_impl.cpp:1339-1366 | status and pool as the stop-by-name walk gives |
| MusicManager.DirectMusicMgr.StopPlaying | runtime/kernel/src/genericmusic_impl.cpp:1298-1368 | status and state as MusicSpec.StopPlaying gives |
| MusicManager.DirectMusicMgr.StopSecondary | runtime/kernel/src/genericmusic_impl.cpp:1298-1368 | status and state as MusicSpec.StopSecondary gives |
| MusicManager.DirectMusicMgr.StopMotif | runtime/kernel/src/genericmusic_impl.cpp:1433-1501 | status and state as MusicSpec.StopMotif gives |
| MusicManager.DirectMusicMgr.HalfWay | runtime/kernel/src/genericmusic_impl.cpp:2719-2730 | status and state as MusicSpec.HalfWay gives |
| MusicManager.DirectMusicMgr.EndCheck | runtime/kernel/src/genericmusic_impl.cpp:2732-2735 | status and state as MusicSpec.EndCheck gives |
| MusicManager.DirectMusicMgr.UpdateInstance | runtime/kernel/src/genericmusic_impl.cpp:2712-2736 | status and state as MusicSpec.UpdateInstance gives |
| MusicManager.DirectMusicMgr.Update | runtime/kernel/src/genericmusic_impl.cpp:2694-2740 | status and state as MusicSpec.Update gives; a tick without an almost-end notification over states that share no instance returns LtOk, runs every started instance down by dt, restarts the next instance of each state that passed a half, leaves the pool TickPool gives, and changes nothing else |

## Left out

- I/O, playback and timing. Sound-instance playback, volume and `UpdateOutput` are out of the model. Stopping samples and the `DSBPLAY` flags are too. An instance is reduced to its length, its countdown timer and whether it has a sample.
- Level loading. `InitLevel`, `TermLevel`, `LoadSegment` and the control-file readers (`Read*`) are out. The level is an input value: intensities, the transition matrix, and the secondary segments and motifs. This includes LoadSegment's early exit for an already-loaded segment.
- MusicManager.DirectMusicMgr.constructor: stands for the constructor followed by `Init` and a successful `InitLevel`. The constructor alone (genericmusic_impl.cpp:432-458) leaves both initialisation flags false. `Init` sets the manager flag (genericmusic_impl.cpp:490), and `InitLevel` sets the level flag, clears the cursor and sets the current and previous intensity to 0 (genericmusic_impl.cpp:747-763). The model's constructor ensures that combined state. The model does not construct an uninitialised manager. The guards on those flags are still modelled, because the specification functions read the flags from the state they are given.
- Enact time in some operations. `ChangeIntensity`, `Stop` and `Pause` take an enact time that has no effect in the model. `EnactTypeToFlags` (genericmusic_impl.cpp:2538-2542) always returns 0.
- Integer overflow in the music manager. The pause count and the transition index overflowing C `int` are not modelled; both are unbounded integers.
- Null entries inside instance arrays. An array entry missing from the instance table stands for a NULL instance pointer, and the model does not follow the source for it in every place. `PlayInstance` treats it as an instance without a sample. `UpdateInstance` passes over it entirely, where the source would dereference NULL. `FirstPlayable` picks a segment whose first instance is missing, where the source passes over that segment (genericmusic_impl.cpp:1157-1161). None of these cases arises in the source, because `LoadSegment` (genericmusic_impl.cpp:1657-1709) registers no segment when one of its instances fails to load.
- Headers that are not part of this model. `genericmusic_impl.h`, `CSoundInstance` and `CList` are not part of this model, so six behaviours are assumed. `UpdateTimer` is assumed to lower the timer by dt and stop at 0. `PlayInstance` called with one argument is assumed to pass a nonzero `reset_prev`, which resets the previous intensity. `CList::Insert` is assumed to add at the head of the list; the pools and the secondary queue grow at their head accordingly. `SetSoundInstances` (genericmusic_impl.cpp:2440) is assumed to set the started-instance counter that `GetCurrentInstance` reads to 1, that is, the first instance counts as started. `AdvanceInstance` (genericmusic_impl.cpp:2723) is assumed to add one to that counter. `GetNumInstances` (genericmusic_impl.cpp:2721) is assumed to return the length of the state's instance array. The timer loop (MusicSpec.Update) and every MusicTick result depend on these three.
- MusicProps.UpdateRunsTimerDown: stated for a pool of one state with one started instance. The general statement over any pool is MusicTick.UpdatePlainTick and MusicTick.UpdateQuietTick.
- MusicProps.UpdateStartsNextInstance: stated for a pool of one state with one started instance. The general statement is MusicTick.UpdatePlainTick with MusicTick.StepHalf.
- MusicProps.UpdateEndsSegment: stated for a pool of one state with one started instance. The general statement is MusicTick.UpdateRemovesExactlyEnded.
- MusicTick.UpdatePlainTick: covers only ticks in which no state passes a half with every instance already started, and no instance belongs to two states. Such a tick would post an almost-end notification, or let one state's update end another. An almost-end tick is described only by MusicProps.AlmostEndOnlyPrepends: what does return has only added states at the head of the primary pool.
- MusicManager.DirectMusicMgr.HalfWay: its contract is the specification function's. That function is characterised by MusicTick.StepHalf when the state has an instance left to start, and by MusicProps.AlmostEndOnlyPrepends otherwise.
- MusicManager.DirectMusicMgr.EndCheck: its contract is the specification function's. That function is characterised by MusicTick.StepRunsDown and StepEnds only inside a plain tick.
- MusicManager.DirectMusicMgr.UpdateInstance: its contract is the specification function's. That function is characterised by MusicTick.StepMissing, StepHalf, StepRunsDown and StepEnds only inside a plain tick.
- A state freed during its own update. The model finds that state by its distance from the pool's end, where the source reads freed memory through the saved `Next` pointer.
- Hangs and faults. Where the program would loop forever or dereference NULL, the methods return `Diverged` or `Faulted` instead.
- MusicManager.DirectMusicMgr.StopAllStates: on a walk that does not end, the contract says nothing about the pool it leaves.
- MusicManager.DirectMusicMgr.StopNamedStates: on a walk that does not end, the contract says nothing about the pool it leaves.
- Reverb, volume and working-directory setters, and styles and bands: they hold no sequencing logic. `SetReverbParameters`, `EnableReverb`, `DisableReverb`, `InitReverb`, `TermReverb`, `SetVolume`, `SetWorkingDirectory`, `SetRezFile`, `LoadDLSBank`, `LoadStyleAndBands` and `LoadBand` are out.
- ADPCM channel counts. Channel counts other than 1 and 2 are excluded by the precondition, as the driver only produces those.
- ADPCM buffer overruns. Reads past the end of the input buffer, and the overrunning last-block write as written, appear only as counterexample lemmas. `DecodeData` models the corrected decoder (see Findings).
- WaveFile.ParseWaveFile: the sample-data region it reports is not checked against the image size, as in the source. Reading an id or size word past the image is reported as `ReadPastEnd`.
- SoundSys: the `LHPROENUM` handle is modelled as an integer cursor. Position, velocity and orientation of 3D objects, and every other part of samples, are out.
- VectorFont.GetTextureSizeFromCharSizes: the raw width, a rounded `sqrtf` of the estimated area, is an input. It also requires the height estimate, the row height times the number of glyphs plus one, to be at most 2^30. That bounds every row count the walk can reach, so the height never overflows the `int` doubling in GetPowerOfTwo; the model does not describe the overflow for larger estimates. FreeType/stb_truetype glyph rasterisation is out; glyph widths, heights and bitmaps are inputs.
- VectorFont.GetPowerOfTwo: requires the value to be at most 2^30. For a larger value the source's `int` doubling overflows, which is undefined behaviour in C and in practice never ends the loop; the model does not describe that.
- VectorFont.CopyGlyphBitmapToPixelData: requires every glyph row to fit in the texture (RowsFit). The layout loop does not ensure this: it clamps only the start row to the pixel buffer (cuivectorfont.cpp:515-522), so a glyph near the bottom or right edge can write past the buffer. The model does not describe those out-of-bounds writes.
- VectorFont.MulDiv: the rounding property is stated only for a non-negative product and a positive denominator that do not overflow. Other inputs are computed but not characterised.

## Findings

| source | as written | input that shows it | evidently intended | confidence | as-written member | corrected member |
|---|---|---|---|---|---|---|
| runtime/ui/src/sys/linux/cuivectorfont.cpp:277-283 | when a glyph does not fit, the size walk starts a new row with x = 0, without the glyph's own width | three glyphs 40 wide and 14 high, texture 64 wide: height 32, but the layout puts the third glyph at y = 32 | the new row starts with the glyph on it, as the layout loop places it | not executed | VectorFont.HeightAsWrittenTooSmall | VectorFont.GetTextureSizeFromCharSizes |
| runtime/sound/src/sys/openal/openal.cpp:176 | the output pointer advances by this_block_pcm_samples * 2 bytes, one 16-bit slot per frame, even for stereo | stereo, 16-byte blocks, 18 frames: the second block overwrites the first block's second half | advance by frames * channels slots | not executed | Adpcm.StereoBlocksOverlap | Adpcm.DecodeData |
| runtime/sound/src/sys/openal/openal.cpp:159-166 | the last block is resized to ((n + 6) & ~7) + 1 frames and decoded straight into the output, which has room for n | mono, 8-byte blocks, 2 frames: 9 frames are written into room for 2. Latent: both callers in openal.cpp (1721-1728, 2390-2397) round the frame count up to whole blocks, so no partial last block reaches this code through them | decode the last block aside and keep only the n frames that remain | not executed | Adpcm.LastBlockOverrunsOutput | Adpcm.DecodeData |
| runtime/sound/src/sys/openal/openal.cpp:144-166 | the block buffer adpcm_block holds block_size bytes, but the resized last block can be larger, and the memcpy copies the whole of it into that buffer | mono, 9-byte blocks, 10 frames: the last block is 12 bytes, copied into a 9-byte buffer. Latent: both callers in openal.cpp (1721-1728, 2390-2397) round the frame count up to whole blocks, so no resized last block reaches this code through them | copy each block into a buffer of that block's own size | not executed | Adpcm.LastBlockExceedsScratch | Adpcm.DecodeNextBlock |
| runtime/kernel/src/genericmusic_impl.cpp:999-1007 | UnPause returns LT_ERROR when the manager is initialised and when the level is initialised, the reverse of Pause's guards | Pause on an initialised manager and level, then UnPause: LT_ERROR, still paused; Stop then loops forever | fail when the manager or the level is NOT initialised | not executed | MusicSpec.PauseIsPermanent | MusicSpec.UnPauseCorrected |
