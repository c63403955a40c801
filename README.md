# massive, modelled in Dafny

massive is a retained-mode rendering system for interactive 3D desktops of code and documents. Its scene objects are animated values, laid out in bands and groups and batched into GPU draw calls. This project models the parts of it that decide *what* is drawn and *when*. It does not model the GPU, font or window code that carries those decisions out.

- **Layout** (`layout/`). The one-shot layouter records a trace of containers and leaves, then places it into absolute rectangles. The incremental layouter caches sizes and rectangles per node and recomputes only the pending nodes and their ancestors. It also covers the ranked size/offset types both layouters use.
- **Desktop** (`desktop/`):
  - the ordered hierarchy of groups and launchers, and the strict layout-spec map;
  - focus paths, focus trees and focus targets, with their exit/enter transitions;
  - the focus manager and the event router, which send focus and cursor events along those transitions;
  - the band presenter and the view registry;
  - the event-sourced desktop system: a project becomes a transaction of commands;
  - project configuration, with the TOML reader and the three id-assigning group conversions.
- **Scene** (`scene/`). Scene changes, the coarse change surface, the per-type id generators, transform resolution, and the handles and timelines that record creation, updates and deletion.
- **Renderer** (`renderer/`):
  - transaction versions, versioned and computed values, the id table, and location matrices resolved lazily against versions;
  - render geometry versioning, depth-bias render batches, and the doubling quad index buffer;
  - the glyph atlases (allocation, growth and re-upload), the mark-and-sweep glyph cache, glyph parameters, and padding or distance-field rasterization;
  - the text layer: atlas lookup, the SDF and color atlas vertices, and batching;
  - the quad layers and frame statistics.
- **Text and shapes** (`text/`, `shapes/`). Glyph placement inside a run, texture quads, padded images, and the edge-detection stage of the signed-distance-field generator.
- **Animation** (`animation/`). The coordinator's update cycles and ending time, blended animation stacks, animated values and timelines, the tickery and the time scale.
- **Input** (`input/`). The event history with its collection of old records, the per-device event aggregator, and the input crate's `Progress`.
- **Shell and utilities** (`shell/`, `util/`). The message filters, latest-message-per-variant filtering, and the shell scene's redraw, pacing and resize decisions.
- **Example support** (`examples/`). Terminal colour parsing, the log viewer's text attributor, attributed-text coverage checks, and the example applications' camera control.

Each source file that works on values becomes a module of datatypes, functions and lemmas. Each source file that updates state in place becomes a class whose methods state the new state. A method either ties the new state to a pure transition function of the old state (`After…`, `…Of`) or states it outright; lemmas about those functions carry the properties. Loops in the source are `while` loops with invariants. A panic is an explicit outcome (`Outcome.Panics`, or a returned flag), never a precondition, unless the source's callers rule it out.

Three facts about the code shape the model:
- No atlas or batch code evicts entries, packs shelves or clips batches, so the model has none of that.
- Animations end by blending out, as `proceed` does.
- The ordered hierarchy checks a node's single parent only on insertion. It does not reject cycles.

## Model

| member | source | states |
|---|---|---|
| Coordinator.Initial | animation/src/coordinator.rs:55-64 | a new coordinator is not animating, has no cycle, and its ending time is now |
| Coordinator.WithCycle | animation/src/coordinator.rs:126-129 | an open cycle is kept as it is; otherwise an implicit cycle opens at the current clock; nothing else changes |
| Coordinator.Upgraded | animation/src/coordinator.rs:77-82 | the cycle (opened if needed) is an apply-animations cycle at the unchanged cycle time |
| Coordinator.Allocated | animation/src/coordinator.rs:104-134 | animating is set and the ending time becomes the larger of the old one and cycle time plus duration |
| Coordinator.Ended | animation/src/coordinator.rs:85-94 | the cycle is always closed; animating stays set unless an apply-animations cycle reached the ending time |
| Coordinator.CycleTimeStable | animation/src/coordinator.rs:99-129 | reading, upgrading and allocating keep the cycle time until the cycle ends |
| Coordinator.OpenCycleIgnoresClock | animation/src/coordinator.rs:126-129 | with a cycle open the clock does not matter |
| Coordinator.EndingTimeMonotone | animation/src/coordinator.rs:131-132 | the ending time never decreases |
| Coordinator.AllocatedStaysAnimating | animation/src/coordinator.rs:85-110 | an allocation of positive duration keeps animations active at the end of its cycle |
| Coordinator.UpgradedCycleEndsAnimations | animation/src/coordinator.rs:85-94 | an apply-animations cycle ends animations exactly when its time reached the ending time |
| Coordinator.ImplicitCycleKeepsAnimating | animation/src/coordinator.rs:85-94 | an implicit cycle never clears animating |
| Coordinator.AnimationCoordinator.EndCycle | animation/src/coordinator.rs:85-94 | the new state is `Ended` of the old one and the result is the animating flag |
| Coordinator.AnimationCoordinator.CurrentCycleTime | animation/src/coordinator.rs:99-101 | returns the cycle time, opening an implicit cycle if needed |
| Coordinator.AnimationCoordinator.AllocateAnimationTime | animation/src/coordinator.rs:104-110 | returns the cycle time; the new state is `Allocated` |
| Coordinator.AnimationCoordinator.UpgradeToApplyAnimationsCycle | animation/src/coordinator.rs:77-82 | the new state is `Upgraded` |
| Tickery.LastPrepare | animation/src/tickery.rs:45-49 | the index of the last frame preparation in a run of operations, none after it |
| Tickery.RunTracksUse | animation/src/tickery.rs:45-61 | after any run the tick is the last prepared one, and it counts as used exactly when `current_tick` was called since |
| Tickery.Tickery.PrepareFrame | animation/src/tickery.rs:45-49 | sets the tick and clears the users flag |
| Tickery.Tickery.CurrentTick | animation/src/tickery.rs:52-56 | returns the unchanged tick and sets the users flag |
| Tickery.Tickery.AnyUsers | animation/src/tickery.rs:59-61 | reports the flag, reading only |
| TimeScale.Passed | animation/src/time_scale.rs:35-43 | a later cycle time becomes the reference with the gap as the duration; otherwise nothing changes |
| TimeScale.PassedIdempotent | animation/src/time_scale.rs:35-43 | asking again in the same cycle returns the same duration |
| TimeScale.PassedMonotone | animation/src/time_scale.rs:35-43 | the reference time only moves forward |
| TimeScale.Seconds | animation/src/time_scale.rs:29-31 | the duration in seconds, non-negative |
| TimeScale.TimeScale.DurationPassed | animation/src/time_scale.rs:35-43 | reads the coordinator's cycle time and updates as `Passed`; returns the duration |
| TimeScale.TimeScale.ScaleSeconds | animation/src/time_scale.rs:29-31 | `duration_passed` in seconds |
| BlendedAnimations.TAt | animation/src/blended_animation.rs:141-160 | between 0 and 1; 0 before the start; 1 exactly from the end on, zero duration included; linear in between |
| BlendedAnimations.ValueAtT | animation/src/blended_animation.rs:166-181 | the start value below 0, exactly the target from 1 on, the eased interpolation between |
| BlendedAnimations.Weight | animation/src/blended_animation.rs:79-81 | between 0 and 1, and 1 for the bottom animation |
| BlendedAnimations.FirstContributing | animation/src/blended_animation.rs:87-91 | the last animation whose weight reached 1; every animation above it has weight below 1 |
| BlendedAnimations.TrimmedKeepsTop | animation/src/blended_animation.rs:94-102 | proceed keeps a suffix with the top animation, and clears the stack exactly when only the top contributes and it has ended |
| BlendedAnimations.DroppedDoNotContribute | animation/src/blended_animation.rs:83-95 | the dropped animations do not change the blended value |
| BlendedAnimations.ProceedKeepsValue | animation/src/blended_animation.rs:83-95 | blending the whole stack equals blending what proceed keeps |
| BlendedAnimations.BlendedAnimation.AnimateTo | animation/src/blended_animation.rs:28-43 | pushes the new animation on top of the stack |
| BlendedAnimations.BlendedAnimation.IsActive | animation/src/blended_animation.rs:46-48 | true exactly when the stack is non-empty |
| BlendedAnimations.BlendedAnimation.FinalValue | animation/src/blended_animation.rs:51-53 | the top's target, none on an empty stack |
| BlendedAnimations.BlendedAnimation.Proceed | animation/src/blended_animation.rs:58-105 | none on an empty stack; otherwise the blend of all animations, with the stack trimmed |
| BlendedAnimations.BlendedAnimation.End | animation/src/blended_animation.rs:108-114 | returns the old final value and empties the stack |
| BlendedAnimations.BlendedAnimation.Count | animation/src/blended_animation.rs:119-121 | the stack's size |
| Animated.FinalOf | animation/src/animated.rs:146-148 | the top target, or the current value with no animations |
| Animated.FinalAfterAnimate | animation/src/animated.rs:60-71 | after animate the final value is the target |
| Animated.EndedAnimationSettles | animation/src/animated.rs:96-106 | a single ended animation yields exactly its target and empties the stack |
| Animated.Animated.FinalValue | animation/src/animated.rs:110-112 | the top target, or the stored value |
| Animated.Animated.IsAnimating | animation/src/animated.rs:124-126 | true exactly when the blend is active |
| Animated.Animated.AnimationCount | animation/src/animated.rs:129-131 | the number of blended animations |
| Animated.Animated.Animate | animation/src/animated.rs:60-71 | allocates time from the coordinator and pushes a blend from the stored value; the final value is the target |
| Animated.Animated.AnimateIfChanged | animation/src/animated.rs:35-52 | nothing changes when the target is already the final value; otherwise as animate |
| Animated.Animated.SetImmediately | animation/src/animated.rs:74-78 | ends the animations and sets the value |
| Animated.Animated.Finish | animation/src/animated.rs:86-91 | ends the animations and the value becomes the old final value (unchanged without animations) |
| Animated.Animated.Value | animation/src/animated.rs:96-106 | without animations returns the stored value and changes nothing; otherwise proceeds at the cycle time and stores the blend |
| AnimationTimeline.Started | animation/src/timeline.rs:63-71 | one animation per queued target, in order, each from the value at the tick instant |
| AnimationTimeline.TickTargetsLastPending | animation/src/timeline.rs:57-77 | with something queued, the blend's final target is the last queued one |
| AnimationTimeline.TimelineInner.AnimateTo | animation/src/timeline.rs:30-42 | only queues; the value stays |
| AnimationTimeline.TimelineInner.Tick | animation/src/timeline.rs:57-77 | the queue is emptied into the blend in order; the value is replaced only when the blend yields one |
| EventHistory.LeadingAfter | input/src/event_history.rs:167-181 | counts the leading records received after the point: those before it all were, the one at it was not |
| EventHistory.UntilThenFrom | input/src/event_history.rs:167-181 | `until` and `from` split the records in two; `until` takes only records received after the point, and `from` starts with one that was not |
| EventHistory.UntilInstantIsNewer | input/src/event_history.rs:167-181 | in an ordered history, `until` an instant takes exactly the records newer than it (see also lines 217-223) |
| EventHistory.GcKept | input/src/event_history.rs:88-96 | gc keeps a prefix, pops only records at or before the limit, and stops at a newer one |
| EventHistory.GcKeepsNewer | input/src/event_history.rs:88-96 | in an ordered history gc keeps exactly the records after the limit |
| EventHistory.ConsOrdered | input/src/event_history.rs:16-45 | a newer record with the next id, put in front, keeps the history ordered |
| EventHistory.PushKeepsOrdered | input/src/event_history.rs:29-46 | push keeps the records newest first with strictly decreasing ids |
| EventHistory.EventHistory.Push | input/src/event_history.rs:29-46 | panics exactly on an event older than the front; otherwise gc, then a record with the next id in front |
| EventHistory.EventHistory.Gc | input/src/event_history.rs:88-96 | the records become `GcKept` at now minus the maximum duration |
| EventHistory.EventHistory.NextId | input/src/event_history.rs:83-86 | returns the incremented counter |
| EventHistory.EventHistory.Current | input/src/event_history.rs:49-51 | the front record, none on an empty history |
| EventHistory.EventHistory.Previous | input/src/event_history.rs:54-56 | the record at index 1, if there is one |
| EventHistory.EventHistory.Historic | input/src/event_history.rs:67-71 | all records but the current one |
| EventHistory.EventHistory.AtOrNewer | input/src/event_history.rs:74-77 | the first record, most recent first, not received after the point: every record before it was received after the point; none exactly when every record was |
| EventAggregator.DefaultDevice | input/src/event_aggregator.rs:115-120 | not entered, no position, no buttons |
| EventAggregator.Updated | input/src/event_aggregator.rs:24-93 | a modifiers change replaces the modifiers; other events leave the state alone; a device event creates its device and touches no other device |
| EventAggregator.CursorEventsSetDevice | input/src/event_aggregator.rs:53-63 | a cursor move sets the position, enter and leave set `entered`; other devices are unchanged |
| EventAggregator.ButtonRecordedOnlyWithPosition | input/src/event_aggregator.rs:65-93 | a button change is recorded with time and position exactly when the device has a position; an unknown device starts from the default |
| EventAggregator.EventAggregator.Update | input/src/event_aggregator.rs:24-51 | the new state is `Updated` of the old one |
| EventAggregator.EventAggregator.SetEntered | input/src/event_aggregator.rs:53-59 | sets `entered` of the (possibly new) device |
| EventAggregator.EventAggregator.CursorMovedTo | input/src/event_aggregator.rs:61-63 | sets the position of the (possibly new) device |
| EventAggregator.EventAggregator.MouseButtonStateChanged | input/src/event_aggregator.rs:65-85 | records the button change only with a position |
| EventAggregator.EventAggregator.ToDeviceStates | input/src/event_aggregator.rs:95-106 | one entry per device in iteration order, and the modifiers |
| EventAggregator.PointingDevice | input/src/event_aggregator.rs:180-184 | the first entry for the id; none exactly when no entry has it |
| EventAggregator.Pos | input/src/event_aggregator.rs:151-153 | none for an unknown device, otherwise its position |
| EventAggregator.IsPressed | input/src/event_aggregator.rs:157-161 | when and where, exactly when the last recorded state of that button is pressed |
| EventAggregator.PressedInSound | input/src/event_aggregator.rs:169-175 | every listed press comes from an entry with the button pressed |
| EventAggregator.PressedInComplete | input/src/event_aggregator.rs:169-175 | every entry with the button pressed is listed |
| EventAggregator.InsertKeepsLatestFirst | input/src/event_aggregator.rs:176-177 | insertion keeps the list most recent first |
| EventAggregator.InsertAddsOne | input/src/event_aggregator.rs:176-177 | insertion adds the press and loses nothing |
| EventAggregator.SortIsOrderedPermutation | input/src/event_aggregator.rs:176-177 | the sort is ordered most recent first and a permutation |
| EventAggregator.AllPressed | input/src/event_aggregator.rs:165-178 | most recent press first, and a permutation of the pressed entries |
| EventAggregator.AllPressedIffPressed | input/src/event_aggregator.rs:165-178 | a press is reported exactly when some device entry has the button pressed |
| MessageFilter.KeepLastPerKey | shell/src/message_filter.rs:16-34 | walking the messages from the back with a set of seen keys and reversing the result yields exactly the messages that have no key or whose key no later message carries, in their original order |
| MessageFilter.KeepLastPerVariant | shell/src/message_filter.rs:7-14 | de-duplicates by variant the messages the selector picks and keeps every other message |
| MessageFilter.LastPerKeyKeysDistinct | shell/src/message_filter.rs:20-28 | no two kept messages share a key |
| MessageFilter.LastPerKeyCoversKeys | shell/src/message_filter.rs:22-31 | every key among the input is the key of some kept message, and every message without a key is kept |
| MessageFilter.LastPerKeyIsSubsequence | shell/src/message_filter.rs:22-32 | the output is a subsequence of the input in the original order |
| MessageFilter.DistinctKeysAllKept | shell/src/message_filter.rs:16-34 | messages whose keys are already distinct pass through unchanged |
| MessageFilter.LastPerKeyIdempotent | shell/src/message_filter.rs:16-34 | filtering twice gives the same result as filtering once |
| MessageFilter.Reversed | shell/src/message_filter.rs:32 | reversal maps index i to index n-1-i and keeps the length |
| AsyncWindowRenderer.FilterLatestMessages | shell/src/async_window_renderer.rs:86-106 | the two loops (latest index per variant, then keep the message at each such index) keep exactly what `keep_last_per_key` keeps with every message keyed by its variant |
| AsyncWindowRenderer.LatestIndicesStep | shell/src/async_window_renderer.rs:91-94 | recording an index for its variant keeps the map of latest indices correct for the longer prefix |
| AsyncWindowRenderer.LatestDecidesKept | shell/src/async_window_renderer.rs:98-103 | a message is kept exactly when its index is the one recorded for its variant |
| AsyncWindowRenderer.SurvivorsAll | shell/src/async_window_renderer.rs:97-104 | collecting survivors front to back equals the survivors of `keep_last_per_key` |
| AsyncWindowRenderer.LatestPerVariant | shell/src/async_window_renderer.rs:86-106 | the output holds one message per variant, every variant of the input, in the input's order, and is never longer than the input |
| ShellScene.ResizeOf | shell/src/scene.rs:88-98 | a new size is recorded exactly for a Resized event of this window, with that event's width and height |
| ShellScene.NewPacing | shell/src/scene.rs:110-123 | Fast switches to Smooth exactly when animations are active; Smooth switches to Fast exactly when they are inactive and were applied in this cycle; a switch always changes the pacing |
| ShellScene.Decide | shell/src/scene.rs:68-123 | the step-by-step flags come out as: the resize of this window's Resized event, the pacing switch of `NewPacing`, and a redraw exactly for changes, this window's redraw request or resize, ApplyAnimations, or a switch to Smooth |
| ShellScene.Scene.RenderTo | shell/src/scene.rs:61-150 | ends the animation cycle, takes the scene's changes and issues to the renderer exactly the calls `Calls` lists; the renderer's pacing ends as the switch says |
| ShellScene.CallsOrdered | shell/src/scene.rs:79-82 | the calls come in the order changes, resize, pacing update, redraw, each at most once (see also lines 131-147) |
| ShellScene.RedrawExactly | shell/src/scene.rs:79-117 | a redraw is issued exactly when there are changes, this window asks for it, animations are applied, or pacing switches to Smooth; it is the last call (see also lines 145-147) |
| ShellScene.SmoothSwitchRedraws | shell/src/scene.rs:113-117 | a switch from Fast to Smooth is followed by a redraw |
| ShellScene.OtherWindowIgnored | shell/src/scene.rs:87-108 | an event for another window has the same effect as no event |
| TerminalColor.HexValue | examples/logs/src/terminal/color.rs:48-53 | a character has a hexadecimal value exactly when it is a decimal digit or a letter a-f in either case, and that value is below 16 |
| TerminalColor.PrefixLength | examples/logs/src/terminal/color.rs:61-69 | the prefix is one character for '#', two for "0x", and absent in every other case |
| TerminalColor.Component | examples/logs/src/terminal/color.rs:45-57 | the component's high and low nibbles are the two digits read |
| TerminalColor.FromStr | examples/logs/src/terminal/color.rs:41-74 | `Ok` exactly for a prefix followed by six hexadecimal digits, and then the colour those digits spell; `Err` otherwise |
| TerminalColor.FormatRoundTrip | examples/logs/src/terminal/color.rs:41-74 | every colour written as "#rrggbb" is accepted and reads back as the same colour |
| TerminalColor.TrailingIgnored | examples/logs/src/terminal/color.rs:71-73 | characters after the sixth digit change neither acceptance nor the colour |
| TerminalColor.BadPrefixRejected | examples/logs/src/terminal/color.rs:61-69 | the empty string, a first character other than '0' or '#', and a '0' not followed by 'x' are rejected |
| AttributedText.AssertContiguous | examples/shared/src/attributed_text.rs:88-92 | returns exactly when every range ends where the next one starts |
| AttributedText.AssertCoversAllText | examples/shared/src/attributed_text.rs:79-86 | returns exactly when the text is empty or the ranges start at 0, end at the text length and are contiguous; an empty range list panics for a non-empty text |
| AttributedText.CoveredPositions | examples/shared/src/attributed_text.rs:79-86 | ranges that pass the check and are not reversed place every position of the text in exactly one range |
| AttributedText.StartsAscend | examples/shared/src/attributed_text.rs:88-92 | in contiguous ranges that are not reversed, each range ends at or before every later one starts |
| AttributedText.SliceAll | examples/shared/src/attributed_text.rs:48-53 | returns exactly when every range can be sliced out of the text: not reversed, within the text, on character boundaries |
| AttributedText.ShapeText | examples/shared/src/attributed_text.rs:25-55 | panics exactly when the text is non-empty and the ranges do not cover it, or some range cannot be sliced out of the text; otherwise shapes the text with its ranges |
| AttributedText.EmptyTextWithAttributePanics | examples/shared/src/attributed_text.rs:32-53 | an empty text passes the coverage check but an attribute range beyond it still panics when sliced |
| TextAttributor.Utf8Len | examples/logs/src/terminal/text_attributor.rs:41 | a character takes one to four bytes, one exactly for the ASCII range (see also line 95) |
| TextAttributor.Initial | examples/logs/src/terminal/text_attributor.rs:30-44 | a new attributor has no text and no attributes; its default and current attributes are the scheme's foreground colour, not bold |
| TextAttributor.TextAttributor.constructor | examples/logs/src/terminal/text_attributor.rs:30-44 | the new attributor's state is `Initial` of the scheme |
| TextAttributor.TextAttributor.Process | examples/logs/src/terminal/text_attributor.rs:86-219 | changes the state as the corrected `Step` does, with one attribute per byte of every printed character; a palette index beyond the palette panics and changes nothing |
| TextAttributor.StepKeepsValid | examples/logs/src/terminal/text_attributor.rs:41 | every action keeps one attribute per byte of the text (see also lines 88-117) |
| TextAttributor.PrintingAppends | examples/logs/src/terminal/text_attributor.rs:88-117 | printing actions, line feeds and carriage returns append their text and the attributes in effect once per byte, and change no attributes; every other control code and non-SGR action changes nothing (see also lines 166-167, 214-217) |
| TextAttributor.SgrSetsAttributes | examples/logs/src/terminal/text_attributor.rs:168-203 | SGR actions leave the text alone: Reset restores the default, Bold and Normal intensity set and clear bold, Half changes nothing, the default foreground restores the default colour, a palette index above 7 picks `bright[index - 8]` and otherwise `normal[index]`, panicking exactly when that entry does not exist |
| TextAttributor.TextAttributor.IntoTextAndAttributeRanges | examples/logs/src/terminal/text_attributor.rs:46-84 | returns the text and no ranges for no attributes; otherwise the maximal runs of equal attributes: they start at 0, end at the attribute count, follow each other without gaps, are not empty, carry the colour and weight of every byte they span, and end exactly where the attributes change |
| TextAttributor.TilesStep | examples/logs/src/terminal/text_attributor.rs:58-69 | appending the run that starts where the ranges end keeps them tiling, now up to the run's end |
| TextAttributor.UniformStep | examples/logs/src/terminal/text_attributor.rs:58-69 | appending a run of equal attributes keeps every range carrying the attributes it spans |
| TextAttributor.MaximalStep | examples/logs/src/terminal/text_attributor.rs:58-64 | a run closed where the attributes change, or at the end, keeps every range maximal |
| TextAttributor.CloseRun | examples/logs/src/terminal/text_attributor.rs:58-69 | closing a run of equal attributes at a change of attributes, or at the end, extends the maximal runs by it |
| TextAttributor.RunsCover | examples/logs/src/terminal/text_attributor.rs:46-84 | the ranges produced pass `assert_covers_all_text` for a text of as many bytes as there are attributes |
| TextAttributor.RunsMismatchPanics | examples/shared/src/attributed_text.rs:79-86 | for a non-empty text of any other byte length the ranges fail that check |
| TextAttributor.ValidRangesCoverText | examples/logs/src/terminal/text_attributor.rs:41 | with one attribute per byte, the produced ranges pass the check for the text (see also lines 46-84) |
| TextAttributor.MultibytePrintBreaksCoverage | examples/logs/src/terminal/text_attributor.rs:88-91 | as written, printing 'é' gives one attribute for two bytes of text, and the produced ranges fail `shape_text`'s check |
| TextAttributor.MultibytePrintCovered | examples/logs/src/terminal/text_attributor.rs:88-91 | corrected, printing 'é' gives two attributes for its two bytes |
| Application.Default | examples/shared/src/application.rs:17-30 | a new application has no gesture, no known positions and zero translation, zoom and rotation |
| Application.ExitExactly | examples/shared/src/application.rs:55-65 | `update` answers Exit exactly for a close request or a pressed Escape and then changes nothing; only a middle press can panic (see also line 189) |
| Application.CursorMoveFollows | examples/shared/src/application.rs:66-89 | a cursor move records the device's position; during a movement the translation becomes its origin plus the distance moved, during a rotation the rotation does; nothing else changes |
| Application.LeftButton | examples/shared/src/application.rs:103-123 | a left press from a known device starts a rotation with super held and a movement otherwise, from the device's position and the current translation or rotation; a release ends the gesture; an unknown device changes nothing |
| Application.MiddleButton | examples/shared/src/application.rs:124-137 | a middle press starts a rotation and panics exactly when the device's position is unknown; a release ends the gesture |
| Application.RightButtonResets | examples/shared/src/application.rs:139-144 | any right-button event sets the rotation to zero and changes nothing else |
| Application.LineWheelZooms | examples/shared/src/application.rs:98-102 | a moving line-delta wheel adds 16 per line to the zoom, another phase changes nothing |
| Application.ModifiersReplaced | examples/shared/src/application.rs:145-156 | after a modifier change the modifiers are the new ones and nothing else changes |
| Application.DragTranslates | examples/shared/src/application.rs:66-89 | pressing the left button and moving the same device translates the page by the distance moved (see also lines 103-123) |
| Application.ReleaseStopsFollowing | examples/shared/src/application.rs:66-89 | after a release, cursor moves change neither translation nor rotation (see also lines 120-122, 134-136) |
| Application.ZoomIsWheelSum | examples/shared/src/application.rs:90-102 | over any event sequence the zoom changes by exactly the wheel deltas before the first exit |
| Application.PositionsTracked | examples/shared/src/application.rs:66-74 | over any event sequence the known devices are those known before plus those whose cursor moved |
| Application.Application.constructor | examples/shared/src/application.rs:17-30 | the new application's state is `Default` |
| Application.Application.Update | examples/shared/src/application.rs:53-190 | changes the fields as `Next` says and returns its response; a panic leaves them as they were |
| OrderedHierarchy.Parent | desktop/src/aggregates/ordered_hierarchy.rs:143-145 | some exactly when the node is known and has a parent, and then that parent |
| OrderedHierarchy.GetNested | desktop/src/aggregates/ordered_hierarchy.rs:152-157 | the node's nested list, empty for an unknown id |
| OrderedHierarchy.Position | desktop/src/aggregates/ordered_hierarchy.rs:199-204 | none exactly when the id is absent; otherwise an index holding it with no earlier occurrence |
| OrderedHierarchy.PositionFirst | desktop/src/aggregates/ordered_hierarchy.rs:105 | the first index holding the id is its position |
| OrderedHierarchy.At | desktop/src/aggregates/ordered_hierarchy.rs:216-220 | `get`: some exactly for an index in range, and then the element there |
| OrderedHierarchy.RemoveTree | desktop/src/aggregates/ordered_hierarchy.rs:118-141 | a removal that returns leaves strictly fewer nodes, each unchanged |
| OrderedHierarchy.RemoveTrees | desktop/src/aggregates/ordered_hierarchy.rs:136-138 | removing the trees in order leaves a subset of the nodes, each unchanged |
| OrderedHierarchy.RemoveTreeRemovesTree | desktop/src/aggregates/ordered_hierarchy.rs:118-141 | on an acyclic linked hierarchy the recursive removal removes exactly the nodes below the id and never panics |
| OrderedHierarchy.RemoveTreesRemovesTrees | desktop/src/aggregates/ordered_hierarchy.rs:136-138 | removing sibling trees one after another removes exactly their union |
| OrderedHierarchy.RemoveProperties | desktop/src/aggregates/ordered_hierarchy.rs:86-116 | unknown id is an error and changes nothing; a known id succeeds, its whole tree is gone, it is gone from its parent's list with the order kept, the parent stays, and the links still agree |
| OrderedHierarchy.RemoveKeepsLinked | desktop/src/aggregates/ordered_hierarchy.rs:93-113 | removal keeps parent links and nested lists in agreement and lists duplicate-free |
| OrderedHierarchy.AddProperties | desktop/src/aggregates/ordered_hierarchy.rs:50-60 | succeeds exactly when the nested node has no parent; a failure changes nothing; success appends it to the parent's list, sets its parent, creates missing nodes, leaves every other node and parent link as it was, and keeps the links in agreement |
| OrderedHierarchy.InsertAtProperties | desktop/src/aggregates/ordered_hierarchy.rs:62-84 | the parent exists afterwards in every case; succeeds exactly when the index is at most the nested count and the node has no parent; the index error comes first; success places the node at the index and keeps the links in agreement |
| OrderedHierarchy.LinkProperties | desktop/src/aggregates/ordered_hierarchy.rs:56-58 | linking a parentless node into a list at any index keeps links in agreement, keeps other nodes and parent links |
| OrderedHierarchy.AddNestedProperties | desktop/src/aggregates/ordered_hierarchy.rs:43-48 | links stay in agreement; on success the list is appended in order and each of its nodes has the parent |
| OrderedHierarchy.AddNestedKeepsParents | desktop/src/aggregates/ordered_hierarchy.rs:43-48 | adding never changes an existing parent link |
| OrderedHierarchy.AddNestedSucceeds | desktop/src/aggregates/ordered_hierarchy.rs:43-48 | adding distinct parentless nodes other than the parent succeeds |
| OrderedHierarchy.AddKeepsRanked | desktop/src/aggregates/ordered_hierarchy.rs:50-60 | adding below a parent that is not in the node's own tree keeps the hierarchy free of cycles |
| OrderedHierarchy.AddPermitsCycles | desktop/src/aggregates/ordered_hierarchy.rs:50-60 | add(1, 2) then add(2, 1) both succeed and leave a cycle no depth can rank |
| OrderedHierarchy.NeighborProperties | desktop/src/aggregates/ordered_hierarchy.rs:212-223 | a neighbour is another member of the group, and exists exactly when the group has another member |
| OrderedHierarchy.RemoveWithNestedExample | desktop/src/aggregates/ordered_hierarchy.rs:270-283 | removing the root of 1 → 2 → 3 leaves nothing |
| OrderedHierarchy.RemoveKeepsOrderExample | desktop/src/aggregates/ordered_hierarchy.rs:285-317 | removing 3 from [2, 3, 4] leaves [2, 4] and the parent |
| OrderedHierarchy.QueryExamples | desktop/src/aggregates/ordered_hierarchy.rs:319-334 | a group includes the node itself, a root's group is empty, neighbours follow the bias except at the ends |
| OrderedHierarchy.OrderedHierarchy.Add | desktop/src/aggregates/ordered_hierarchy.rs:50-60 | the new nodes and result are those of AfterAdd |
| OrderedHierarchy.OrderedHierarchy.AddNested | desktop/src/aggregates/ordered_hierarchy.rs:43-48 | the loop's nodes and result are those of AfterAddNested |
| OrderedHierarchy.OrderedHierarchy.InsertAt | desktop/src/aggregates/ordered_hierarchy.rs:62-84 | the new nodes and result are those of AfterInsertAt |
| OrderedHierarchy.OrderedHierarchy.Remove | desktop/src/aggregates/ordered_hierarchy.rs:86-116 | panics, new nodes and result are those of AfterRemove |
| OrderedHierarchy.OrderedHierarchy.RemoveNested | desktop/src/aggregates/ordered_hierarchy.rs:118-141 | the recursive removal panics or leaves exactly what RemoveTree does |
| TomlReader.ValueToString | desktop/src/projects/configuration/toml_reader.rs:87-95 | strings, integers, floats and booleans convert, and a date, array or table is an UnsupportedValue error naming the value; strings are kept, booleans become "true"/"false", integers read back as themselves |
| TomlReader.IntRoundTrip | desktop/src/projects/configuration/toml_reader.rs:90 | the decimal text of an integer parses back to the same integer |
| TomlReader.ValueExamples | desktop/src/projects/configuration/toml_reader.rs:314-320 | "test", 42, -7 and true convert to "test", "42", "-7" and "true" |
| TomlReader.BuildLaunchProfile | desktop/src/projects/configuration/toml_reader.rs:62-85 | the loop over the section returns the first conversion error or exactly the profile ProfileOf describes |
| TomlReader.PrefixErrorStays | desktop/src/projects/configuration/toml_reader.rs:70-71 | once a value in a prefix fails to convert that error is the section's error |
| TomlReader.SplitProperties | desktop/src/projects/configuration/toml_reader.rs:62-85 | a profile is built iff every value converts; then every group-tag key is a tag, every other key a parameter, each with its converted value, and nothing else |
| TomlReader.ProfileExample | desktop/src/projects/configuration/toml_reader.rs:220-236 | a section with a command and two group tags gives one parameter and the two tags |
| TomlReader.InsertSorted | desktop/src/projects/configuration/toml_reader.rs:123-124 | inserting into a sorted list keeps it sorted |
| TomlReader.Sort | desktop/src/projects/configuration/toml_reader.rs:123-124 | the sorted keys are a permutation of the keys, in non-decreasing string order |
| TomlReader.FirstTag | desktop/src/projects/configuration/toml_reader.rs:113 | a value is found exactly when some tag has the scope, and it is the value of such a tag |
| TomlReader.Matching | desktop/src/projects/configuration/toml_reader.rs:111-116 | a profile is among those with a value exactly when its first tag in the scope has that value |
| TomlReader.FoundKeys | desktop/src/projects/configuration/toml_reader.rs:111-116 | the found values are exactly the values tagged in the scope, listed once each in first-appearance order |
| TomlReader.FoundLists | desktop/src/projects/configuration/toml_reader.rs:111-116 | each found value holds exactly the profiles with that value, in profile order |
| TomlReader.ListedProperties | desktop/src/projects/configuration/toml_reader.rs:130-145 | the loop lists distinct found values of the order, each with its profiles, lists every found value of the order, and leaves exactly the unlisted found values |
| TomlReader.ListedOrder | desktop/src/projects/configuration/toml_reader.rs:133-144 | the listed values keep the order of the ordered list |
| TomlReader.EllipsisMembers | desktop/src/projects/configuration/toml_reader.rs:147-152 | a profile is in the ellipsis group iff it belongs to a remaining value |
| TomlReader.LevelListed | desktop/src/projects/configuration/toml_reader.rs:118-145 | a level's listed groups are distinct values of the ordered list, in its order, each with exactly its profiles |
| TomlReader.LevelCoversListed | desktop/src/projects/configuration/toml_reader.rs:130-145 | every profile whose value is in the ordered list lands in one of the listed groups |
| TomlReader.LevelEllipsis | desktop/src/projects/configuration/toml_reader.rs:147-163 | a level ends with a "..." group exactly when some profile's value is outside the ordered list, and that group holds exactly those profiles |
| TomlReader.LevelSortedWithoutOrder | desktop/src/projects/configuration/toml_reader.rs:118-128 | without a configured order all values are listed in strictly increasing order and no "..." group exists |
| TomlReader.GroupsOfAppend | desktop/src/projects/configuration/toml_reader.rs:130-145 | pushing a group for one more value extends the level's groups by that group |
| TomlReader.HierarchyShape | desktop/src/projects/configuration/toml_reader.rs:168-196 | each group is named after its value, tagged with the scope, horizontal at even depth and vertical at odd, holding its profiles at the last level and nesting the next level before it |
| TomlReader.BuildGroupHierarchy | desktop/src/projects/configuration/toml_reader.rs:98-166 | the imperative builder returns exactly GroupHierarchy |
| TomlReader.CollectFound | desktop/src/projects/configuration/toml_reader.rs:111-116 | the loop over the profiles builds Found and its first-appearance order |
| TomlReader.AddListed | desktop/src/projects/configuration/toml_reader.rs:130-145 | the loop builds the groups of the listed values and leaves the rest as Listed says |
| TomlReader.CollectEllipsis | desktop/src/projects/configuration/toml_reader.rs:148-152 | the loop gathers exactly the profiles of the remaining values |
| TomlReader.BuildLaunchGroup | desktop/src/projects/configuration/toml_reader.rs:168-196 | the group built is LaunchGroupOf |
| TomlReader.ProfilesOf | desktop/src/projects/configuration/toml_reader.rs:43-47 | all profiles build or the conversion fails exactly when some section fails; each profile is that section's |
| TomlReader.IntoLaunchGroup | desktop/src/projects/configuration/toml_reader.rs:38-59 | a root group named as given, with an empty tag, horizontal, nesting the hierarchy of the profiles; it fails exactly when some section fails |
| TomlReader.NoTagsNoGroups | desktop/src/projects/configuration/toml_reader.rs:304-312 | without group tags the hierarchy is empty |
| Projects.ConvertedGroupIds | desktop/src/projects/project.rs:94-104 | the group takes the counter's value, the groups get consecutive ids in pre-order from it, and the counter ends advanced by the number of groups |
| Projects.ConvertedGroupsIds | desktop/src/projects/project.rs:98-104 | the child loop numbers its subtrees consecutively in pre-order and keeps one converted group per child |
| Projects.ConvertedLaunchers | desktop/src/projects/project.rs:106-116 | the launchers, in traversal order, are the tree's profiles with consecutive ids from the profile counter, which ends advanced by the number of profiles |
| Projects.ConvertedGroupsLaunchers | desktop/src/projects/project.rs:98-116 | the child loop threads the profile counter so that the launchers are consecutive across siblings |
| Projects.ConvertedShape | desktop/src/projects/project.rs:97-126 | dropping the ids gives back the configured tree: names, tags, layouts, group order and profile order are kept |
| Projects.ConvertedGroupsShape | desktop/src/projects/project.rs:98-104 | the child loop keeps the children and their order |
| Projects.ConvertGroup | desktop/src/projects/project.rs:89-127 | the recursive conversion with its loops returns the numbered tree and both advanced counters as ConvertedGroup describes |
| Projects.FirstNamed | desktop/src/projects/project.rs:69-76 | a slot list has no match exactly when no launcher has the name; otherwise the id of the first launcher with that name |
| Projects.FindProfileFirst | desktop/src/projects/project.rs:67-86 | the depth-first search finds the first launcher with that name in traversal order, and fails exactly when there is none |
| Projects.FindInGroupsFirst | desktop/src/projects/project.rs:77-84 | searching the child groups in order is searching their concatenated launchers |
| Projects.FindProfileByName | desktop/src/projects/project.rs:67-86 | the loops with their early returns compute FindProfile |
| Projects.FirstNamedSlots | desktop/src/projects/project.rs:69-74 | among profiles numbered from a counter, the found id is the counter plus the index of the first profile with that name |
| Projects.ProjectOfProperties | desktop/src/projects/project.rs:42-61 | groups are numbered from 1 in pre-order and launchers from 1 in traversal order, the configured tree is kept, no startup name gives no start, a startup name gives the first profile with that name, and the result is an error exactly when a startup name matches no profile |
| Projects.FromConfiguration | desktop/src/projects/project.rs:42-61 | the constructor computes ProjectOf |
| LaunchGroups.FromConfiguration | desktop/src/projects/launch_group.rs:37-83 | the root is group 1, groups are numbered 1, 2, ... in pre-order, launchers 1, 2, ... in traversal order, and names, tags, directions and order are carried over |
| SlotGroups.LaunchGroupOfSlotGroup | desktop/src/projects/slot_group.rs:7-26 | a numbered launch group is recovered from its slot group |
| SlotGroups.SlotGroupOfLaunchGroup | desktop/src/projects/slot_group.rs:7-26 | a slot group is recovered from its launch group |
| SlotGroups.ConvertGroup | desktop/src/projects/slot_group.rs:42-76 | the recursive conversion with its loops returns the slot group of the launch group numbered the same way, and the same advanced counters |
| SlotGroups.FromConfiguration | desktop/src/projects/slot_group.rs:34-40 | the root is group 1, groups are numbered 1, 2, ... in pre-order, slots 1, 2, ... in traversal order, and the configured tree is kept |
| DesktopSystems.LauncherCommands | desktop/src/desktop_system.rs:203-209 | pushes one InsertLauncher appending the launcher, with its id and profile, to the group |
| DesktopSystems.LaunchGroupCommands | desktop/src/desktop_system.rs:178-201 | the recursion with its loops appends exactly GroupCommands: the group's insertion under its parent, then its child groups' or its launchers' commands in order |
| DesktopSystems.ProjectToTransaction | desktop/src/desktop_system.rs:168-176 | the transaction is the startup command followed by the root group's commands |
| DesktopSystems.GroupCommandsNested | desktop/src/desktop_system.rs:183-199 | every command below a group inserts a group or a launcher into that group or into a group inserted earlier |
| DesktopSystems.ProjectCommandsOrder | desktop/src/desktop_system.rs:168-201 | the first command sets the project's start, the second inserts the root without a parent, and every later command inserts into a group an earlier command inserted |
| DesktopSystems.GroupCommandsInserted | desktop/src/desktop_system.rs:183-209 | a group's commands insert its groups in pre-order and its launchers, with ids and profiles, in traversal order |
| DesktopSystems.ProjectCommandsInserted | desktop/src/desktop_system.rs:168-209 | a project's transaction inserts exactly its groups and its launchers, in order |
| DesktopSystems.DesktopSystem.ApplyProjectCommand | desktop/src/desktop_system.rs:68-104 | applies one command to the hierarchy, the layout specs and the startup profile as AfterCommand describes |
| DesktopSystems.DesktopSystem.Transact | desktop/src/desktop_system.rs:54-60 | applies the commands in order and returns at the first error, as AfterTransact describes |
| DesktopSystems.SetStartupProfileOnly | desktop/src/desktop_system.rs:98-100 | setting the startup profile cannot fail and changes neither the hierarchy nor the specs |
| DesktopSystems.RemoveLaunchGroupOrder | desktop/src/desktop_system.rs:85-89 | the spec is removed before the hierarchy entry: a missing spec fails with the hierarchy untouched, and a failed hierarchy removal leaves the spec removed |
| DesktopSystems.InsertLaunchGroupSpec | desktop/src/desktop_system.rs:70-84 | a group the hierarchy accepts gets a container spec along its direction with spacing 10 and padding 10; a rejected one leaves the specs alone |
| DesktopSystems.AfterTransactAppend | desktop/src/desktop_system.rs:54-60 | a concatenation runs its second part only if the first succeeded, from the state the first left |
| DesktopSystems.FirstErrorStops | desktop/src/desktop_system.rs:54-60 | once a command fails, no later command is applied |
| DesktopSystems.StartupAfter | desktop/src/desktop_system.rs:54-60 | after a successful run the startup profile is the one the last SetStartupProfile names, or the old one (see also lines 98-100) |
| DesktopSystems.SpecsAfter | desktop/src/desktop_system.rs:70-84 | after a successful run without removals the groups with specs are the old ones plus the inserted ones |
| DesktopSystems.ProjectSystem | desktop/src/desktop_system.rs:41-52 | a system built from a project has the project's start as startup profile and layout specs for exactly the project's groups |
| DesktopSystems.New | desktop/src/desktop_system.rs:41-52 | an empty system applies the project's transaction; it fails exactly when the transaction does, with its error |
| IncrementalLayouters.Moved | layout/src/incremental_layouter.rs:294 | moving an offset keeps its number of components |
| IncrementalLayouters.ReplayAppend | layout/src/incremental_layouter.rs:311-320 | replaying two change streams one after the other is replaying their concatenation, and two genuine streams concatenate to a genuine one |
| IncrementalLayouters.ShiftedAppend | layout/src/incremental_layouter.rs:280-305 | two streams of shifted rects concatenate to a stream of shifted rects |
| IncrementalLayouters.ShiftKeepsSizes | layout/src/incremental_layouter.rs:294 | replaying a stream of shifted rects keeps the cached ids and the size of every rect |
| IncrementalLayouters.ClosedHoldsAncestors | layout/src/incremental_layouter.rs:322-330 | a set closed under parents that holds a node holds each of its ancestors |
| IncrementalLayouters.AffectedIsLeast | layout/src/incremental_layouter.rs:322-330 | the ancestors of the pending nodes lie inside every parent-closed set that holds the pending nodes |
| IncrementalLayouters.AffectedRoots | layout/src/incremental_layouter.rs:416-443 | the affected nodes whose parent is missing or unaffected, a subset of the affected set |
| IncrementalLayouters.ClosedAffectedRoots | layout/src/incremental_layouter.rs:86-95 | for a parent-closed affected set the roots are its parentless members; with a single parentless node, the roots are exactly that node (see also lines 416-443) |
| IncrementalLayouters.OffsetDelta | layout/src/incremental_layouter.rs:445-451 | moving the previous offset by the result gives the new offset |
| IncrementalLayouters.CachedSizes | layout/src/incremental_layouter.rs:163-174 | the cached outer sizes of the children in order, failing exactly when a child has no node state (see also lines 209-212) |
| IncrementalLayouters.MovedFixesOnlyByZero | layout/src/incremental_layouter.rs:268-289 | an offset stays where it is only under the zero delta |
| IncrementalLayouters.AbsentChildren | layout/src/incremental_layouter.rs:385-392 | the cached children that the topology no longer has, and only those |
| IncrementalLayouters.CollectChain | layout/src/incremental_layouter.rs:338-348 | walking up from one pending node keeps the set closed under parents, adds the node, and adds only ancestors of pending nodes |
| IncrementalLayouters.CollectAffectedAncestors | layout/src/incremental_layouter.rs:331-352 | the result holds every pending node, is closed under parents and holds only pending nodes and their ancestors |
| IncrementalLayouters.IncrementalLayouter.constructor | layout/src/incremental_layouter.rs:62-69 | no node states, no rects, nothing pending |
| IncrementalLayouters.IncrementalLayouter.MarkReflowPending | layout/src/incremental_layouter.rs:79-83 | adds the id to the pending set and changes nothing else |
| IncrementalLayouters.IncrementalLayouter.Rect | layout/src/incremental_layouter.rs:150-152 | the cached rect, none when the id has no rect |
| IncrementalLayouters.IncrementalLayouter.UpdateRect | layout/src/incremental_layouter.rs:311-320 | stores the rect and reports it exactly when it differs from the cached one or none was cached |
| IncrementalLayouters.IncrementalLayouter.EvictCachedSubtree | layout/src/incremental_layouter.rs:176-183 | the node loses its state and rect, only it and its cached descendants lose entries, the children of every dropped node are dropped too |
| IncrementalLayouters.IncrementalLayouter.MeasureSubtree | layout/src/incremental_layouter.rs:185-220 | panics without a node state; otherwise keeps the cached children and every rect, leaves clean children with rects as they were, and caches for the node the algorithm's measure of its children's cached sizes |
| IncrementalLayouters.IncrementalLayouter.ShiftSubtree | layout/src/incremental_layouter.rs:276-305 | a zero delta changes nothing; a missing rect or running out of depth panics; otherwise the node's rect is the first report, moved by the delta; every report is a cached rect moved by the delta with its size kept; replaying the reports gives the new cache; no rect outside the cached subtree changes; and when the cached subtree is a tree, every rect in it is moved by the delta |
| IncrementalLayouters.IncrementalLayouter.ShiftChildren | layout/src/incremental_layouter.rs:296-304 | shifting each cached child's subtree in turn reports genuine moves by the delta, changes no rect outside the children's subtrees, and in a tree moves every rect in them |
| IncrementalLayouters.IncrementalLayouter.ShiftChild | layout/src/incremental_layouter.rs:302-304 | one more child's subtree shifted extends the shifted region by that subtree and keeps the reports genuine moves |
| IncrementalLayouters.ReachAllMember | layout/src/incremental_layouter.rs:296-304 | a node is reached by a list of nodes exactly when one of them reaches it |
| IncrementalLayouters.TreeChildApart | layout/src/incremental_layouter.rs:260-272 | in a tree-shaped cache, the parent and the subtrees of earlier children lie outside a child's subtree, which is itself a tree |
| IncrementalLayouters.EarlierChildApart | layout/src/incremental_layouter.rs:260-272 | in a tree-shaped cache, no child lies in the subtree of a later sibling |
| IncrementalLayouters.ReachAllSnoc | layout/src/incremental_layouter.rs:296-304 | the children up to one more reach what the shorter list reaches plus that child's subtree |
| IncrementalLayouters.ShiftCompose | layout/src/incremental_layouter.rs:296-304 | two passes that each change only their own region keep everything outside both regions, and on disjoint regions their shifts add up |
| IncrementalLayouters.ShiftChildStep | layout/src/incremental_layouter.rs:296-304 | the reports so far followed by one child's reports are genuine moves by the delta that shift exactly the union of the regions |
| IncrementalLayouters.PlaceChildStep | layout/src/incremental_layouter.rs:260-272 | after one more child is placed, the parent and the earlier children keep their rects and the changed region grows by that child's subtree |
| IncrementalLayouters.IncrementalLayouter.PlaceSubtree | layout/src/incremental_layouter.rs:222-274 | panics without a node state or when the algorithm returns a different number of offsets than children; otherwise the node gets a rect, rects are only added for nodes with state, only rects in the node's cached subtree change, and the reports replay the old cache into the new one, each differing from what it replaces; when the cached subtree is a tree, the node's rect is its absolute offset with its cached outer size and child `i` sits at the algorithm's `i`-th offset |
| IncrementalLayouters.IncrementalLayouter.PlaceChild | layout/src/incremental_layouter.rs:260-272 | a walked or shifted child changes only rects in its cached subtree, and in a tree ends at the offset the algorithm gave it |
| IncrementalLayouters.IncrementalLayouter.EvictAll | layout/src/incremental_layouter.rs:394-396 | every listed node loses its state and rect; the caches only shrink |
| IncrementalLayouters.IncrementalLayouter.RefreshChildrenSubtree | layout/src/incremental_layouter.rs:375-414 | refreshes each node once: stale cached children are evicted, every refreshed node exists and so do its children, which are refreshed too, each refreshed node with a state caches the topology's children, every other state is kept or dropped |
| IncrementalLayouters.IncrementalLayouter.RefreshChildren | layout/src/incremental_layouter.rs:408-413 | panics on a child the topology does not have; otherwise every child is refreshed, with the same guarantees as a refresh of each |
| IncrementalLayouters.IncrementalLayouter.RefreshPendingSubtrees | layout/src/incremental_layouter.rs:354-373 | the pending set is drained; the pending roots are exactly the pending nodes that exist; pending nodes that do not exist have no state and no rect; the subtrees of the pending roots cache the topology's children |
| IncrementalLayouters.IncrementalLayouter.LayoutAffected | layout/src/incremental_layouter.rs:122-145 | with nothing affected nothing changes; otherwise the node keys stay, and the reported rects replay the cache into the new one, each differing from what it replaces; when the root is affected, hangs above every existing node and its cached subtree is a tree, the root's rect is the given offset with its cached outer size |
| IncrementalLayouters.SingleAffectedRoot | layout/src/incremental_layouter.rs:124-126 | under a single root, an affected set built from existing pending nodes that holds the root has the root as its only affected root |
| IncrementalLayouters.IncrementalLayouter.Recompute | layout/src/incremental_layouter.rs:100-148 | panics when the topology lacks the root; with nothing pending and the root at the same offset reports nothing and changes nothing; otherwise drains the pending set, removed pending nodes keep no rect, no node outside the topology gains one, and the reports replay the evicted cache into the new one; when the root moved, hangs above every existing node and caches a tree, its new rect is the given offset with its cached outer size |
| GlyphParam.FromClass | renderer/src/glyph/glyph_param.rs:15-29 | a glyph prefers a signed distance field exactly when it is distorted, and hinting is always on |
| GlyphParam.FromClassAgrees | renderer/src/glyph/glyph_param.rs:15-29 | two classes yield the same parameters exactly when both or neither are distorted |
| ColorAtlas.ToVertices | renderer/src/text_layer/color_atlas.rs:16-34 | each quad corner keeps its position and takes the matching atlas-rectangle corner (left top, left bottom, right bottom, right top) as its texture coordinate |
| ColorAtlas.UvSpansAtlasRect | renderer/src/text_layer/color_atlas.rs:19-33 | texture coordinates stay in atlas pixels: the quad's diagonal spans the atlas rectangle's width and height |
| SdfAtlas.ToVertices | renderer/src/text_layer/sdf_atlas.rs:17-38 | each quad corner keeps its position, takes the matching atlas-rectangle corner as its texture coordinate and the instance's color |
| SdfAtlas.UvSpansAtlasRect | renderer/src/text_layer/sdf_atlas.rs:20-37 | texture coordinates stay in atlas pixels: the quad's diagonal spans the atlas rectangle's width and height |
| Shapes.Size | shapes/src/shapes.rs:47-52 | the run's width, and a height from the highest ascent to the lowest descent |
| Shapes.PixelBoundsAt | shapes/src/shapes.rs:72-78 | the unit square of the pixel at the offset from the hitbox's top left corner |
| Shapes.AgreesWithLabel | shapes/src/shapes.rs:47-78 | the shapes crate measures a run and bounds a pixel exactly as a label does for the same data |
| QuadsRenderer.LayerOfQuads | renderer/src/quads/renderer.rs:140-186 | a layer exists exactly when the shapes hold quads; it keeps the model matrix, counts every quad, and vertex 4 q + k is corner k of quad q in that quad's color |
| QuadsRenderer.VerticesSnoc | renderer/src/quads/renderer.rs:154-166 | one more quad appends exactly its four vertices |
| QuadsRenderer.ExtendVertices | renderer/src/quads/renderer.rs:155-166 | the vertices of the quads seen so far, followed by the four corners of each further quad |
| QuadsRenderer.PrepareQuads | renderer/src/quads/renderer.rs:140-186 | the layer of the quads of every quad shape, glyph runs skipped; none when there are no quads |
| QuadsRenderer.MaxQuadCount | renderer/src/quads/renderer.rs:98-103 | no layer has more quads, some layer has exactly that many, and zero without layers |
| QuadsRenderer.LayersAreNonEmpty | renderer/src/quads/renderer.rs:76-87 | every kept layer holds a quad and four vertices per quad (see also lines 170-172) |
| QuadsRenderer.DrawsAddressLayer | renderer/src/quads/renderer.rs:90-91 | with the index buffer grown to the largest layer, each layer's draw reads only indices of its own vertices (see also lines 97-137) |
| QuadsRenderer.QuadsRenderer.constructor | renderer/src/quads/renderer.rs:60-64 | no layers and an empty index buffer |
| QuadsRenderer.QuadsRenderer.Prepare | renderer/src/quads/renderer.rs:68-94 | the layers become those of the groups holding quads, in order, and the index buffer can index the largest |
| LocationMatrices.DefaultComputed | renderer/src/scene/location_matrices.rs:110-119 | validated at version 0, dependencies at version 0, the zero matrix |
| LocationMatrices.OnChainRanksBelow | renderer/src/scene/location_matrices.rs:84-87 | every location on a parent chain ranks below its start, so the recursion ends |
| LocationMatrices.ResolveValidates | renderer/src/scene/dependency_resolver.rs:20-56 | after resolving, the entry is validated at the head version and the returned version is its stored one; entries validated at the head stay so; entries off the parent chain are untouched (see also renderer/src/scene/location_matrices.rs:65-93) |
| LocationMatrices.ResolveComputes | renderer/src/scene/dependency_resolver.rs:29-56 | an entry validated at the head is returned as is; otherwise the version covers the location's and its local matrix's, a recomputed matrix is the local one for a root and the parent's matrix times the local one otherwise, and an entry whose dependencies are no newer keeps its matrix and version and is only marked validated at the head (see also renderer/src/scene/location_matrices.rs:79-106) |
| LocationMatrices.LocationMatrices.constructor | renderer/src/scene/location_matrices.rs:15-19 | no computed matrices |
| LocationMatrices.LocationMatrices.ComputeMatrices | renderer/src/scene/location_matrices.rs:22-49 | unless a lookup panics, every listed location is validated at the transaction's version |
| LocationMatrices.LocationMatrices.Get | renderer/src/scene/location_matrices.rs:34-36 | a computed location's matrix, the zero matrix for one never computed (see also lines 110-119) |
| SceneHandle.Deletes | scene/src/handle.rs:118-125 | never more deletions than changes |
| SceneHandle.NoDeletes | scene/src/handle.rs:105-115 | creations and updates alone count no deletion |
| SceneHandle.LifecycleDeletesOnce | scene/src/handle.rs:43-55 | an object's recorded changes hold no deletion while a handle to it is alive and exactly one after the last is gone (see also lines 105-125) |
| SceneHandle.InnerHandle.constructor | scene/src/handle.rs:43-55 | one owner, the given id and value, and the creation as the only recorded change |
| SceneHandle.InnerHandle.Update | scene/src/handle.rs:105-110 | the tracker receives exactly an update with the new value's change, and the value is replaced |
| SceneHandle.InnerHandle.Updated | scene/src/handle.rs:112-115 | the tracker receives exactly an update with the current value's change; the value stays |
| SceneHandle.Handle.constructor | scene/src/handle.rs:43-55 | the tracker receives the creation with the value's change; a fresh shared object with one owner |
| SceneHandle.Handle.Id | scene/src/handle.rs:57-59 | the shared object's id |
| SceneHandle.Handle.Value | scene/src/handle.rs:80-82 | the shared current value |
| SceneHandle.Handle.Clone | scene/src/handle.rs:28-37 | a new handle to the same shared object, one more owner, nothing recorded |
| SceneHandle.Handle.Update | scene/src/handle.rs:70-73 | records an update with the new value's change and stores it for every clone |
| SceneHandle.Handle.UpdateIfChanged | scene/src/handle.rs:61-68 | records nothing for the current value; otherwise exactly one update with the new value's change |
| SceneHandle.Handle.UpdateWith | scene/src/handle.rs:75-78 | the value becomes f applied to it, and exactly one update with that value's change is recorded |
| SceneHandle.Handle.Drop | scene/src/handle.rs:118-125 | one owner less; the last owner to go records the deletion, the others nothing; the object then holds exactly one deletion |
| TypeIdGenerator.Acquired | scene/src/type_id_generator.rs:12-14 | the type's generator, or a default one on first use, hands out the id; the type gains a generator and no other type's changes |
| TypeIdGenerator.Released | scene/src/type_id_generator.rs:16-21 | a panic exactly when the type has no generator; otherwise only that type's generator takes the id back |
| TypeIdGenerator.DestructivePairsSpec | scene/src/type_id_generator.rs:52 | a type and id are released exactly when some change is a deletion reporting them |
| TypeIdGenerator.DestructivePairsCount | scene/src/type_id_generator.rs:52 | at most one release per change, and none without a deletion |
| TypeIdGenerator.ReleaseAllPanics | scene/src/type_id_generator.rs:16-55 | releasing never adds or removes generators, and fails exactly when some released type never acquired an id |
| TypeIdGenerator.ReleaseAllKeepsOthers | scene/src/type_id_generator.rs:52-55 | a type no release names keeps its generator |
| TypeIdGenerator.TypeIdGenerator.constructor | scene/src/type_id_generator.rs:6-9 | no generators |
| TypeIdGenerator.TypeIdGenerator.Acquire | scene/src/type_id_generator.rs:12-14 | the generators and id that acquiring yields |
| TypeIdGenerator.TypeIdGenerator.Release | scene/src/type_id_generator.rs:16-21 | a panic exactly for a type without a generator, leaving all as it was; otherwise the released generators |
| TypeIdGenerator.TypeIdGenerator.Gc | scene/src/type_id_generator.rs:45-56 | releases every deletion's id in order, and panics exactly when one of those releases would |
| RenderBatches.ContentsOf | renderer/src/render_batches.rs:11-16 | one visual for exactly the recorded ids, the one in the bucket of its depth |
| RenderBatches.StoredKeeps | renderer/src/render_batches.rs:24-34 | storing places the visual in its depth's bucket and keeps every other entry, adding none |
| RenderBatches.StoreKeepsConsistent | renderer/src/render_batches.rs:21-34 | storing a new id, or one at its recorded depth, keeps every recorded depth naming the one bucket that holds it and leaves no bucket empty |
| RenderBatches.StoreSetsVisual | renderer/src/render_batches.rs:21-34 | storing sets that id's visual and keeps every other |
| RenderBatches.BucketsWithoutKeeps | renderer/src/render_batches.rs:44-58 | removing an id keeps every other bucket entry |
| RenderBatches.RemoveKeepsConsistent | renderer/src/render_batches.rs:44-58 | removing a recorded id keeps the batches consistent, an emptied bucket included |
| RenderBatches.RemoveDropsVisual | renderer/src/render_batches.rs:44-58 | removing drops exactly that id's visual |
| RenderBatches.InsertedKeepsConsistent | renderer/src/render_batches.rs:19-42 | inserting keeps the batches consistent, records the id at its visual's depth and sets its visual; every other id keeps its depth and visual, also when the depth changes |
| RenderBatches.SmallestDepth | renderer/src/render_batches.rs:15 | a non-empty set of depths has a least one, the next bucket the ordered map yields (see also line 61) |
| RenderBatches.RenderBatches.constructor | renderer/src/render_batches.rs:10-16 | empty batches |
| RenderBatches.RenderBatches.Insert | renderer/src/render_batches.rs:19-42 | the state the insertion describes; a depth change is a removal then an insertion; the batches stay consistent |
| RenderBatches.RenderBatches.Remove | renderer/src/render_batches.rs:44-58 | a panic exactly for an unknown id, changing nothing; otherwise the id leaves the depth map and its bucket, and an emptied bucket goes |
| RenderBatches.RenderBatches.RenderVisuals | renderer/src/render_batches.rs:60-62 | every stored visual exactly once, in ascending depth |
| RenderBatches.BucketValues | renderer/src/render_batches.rs:61 | every visual of the bucket exactly once |
| RenderBatches.JoinBucket | renderer/src/render_batches.rs:61 | appending the next bucket keeps each visual once and covers that depth |
| RenderBatches.JoinDepths | renderer/src/render_batches.rs:61 | appending the smallest remaining depth's bucket keeps the order ascending |
| TextLayerRenderer.KeyFor | renderer/src/text_layer/renderer.rs:164-173 | the glyph's cache key, preferring distance fields, hinted, at the run's weight |
| TextLayerRenderer.GlyphVertices | renderer/src/text_layer/renderer.rs:223-245 | the corners of the glyph's placed rectangle in the order left top, left bottom, right bottom, right top, at z = 0 |
| TextLayerRenderer.Translated | renderer/src/text_layer/renderer.rs:125-141 | every corner moved by the run's translation |
| TextLayerRenderer.RunPairs | renderer/src/text_layer/renderer.rs:119-121 | each of the run's glyphs with its run, in order |
| TextLayerRenderer.RunPairsPrefix | renderer/src/text_layer/renderer.rs:121 | the glyphs visited after one more step are those before plus the next |
| TextLayerRenderer.InstancesCount | renderer/src/text_layer/renderer.rs:119-145 | each glyph found in an atlas gives exactly one instance, in one of the two lists |
| TextLayerRenderer.NoInstancesWhenEmpty | renderer/src/text_layer/renderer.rs:144 | empty glyphs are not rendered: without found glyphs both lists stay empty |
| TextLayerRenderer.GlyphRuns | renderer/src/text_layer/renderer.rs:87-90 | no more runs than shapes |
| TextLayerRenderer.GlyphRunsMembers | renderer/src/text_layer/renderer.rs:87-90 | the runs kept are exactly the shapes that are glyph runs |
| TextLayerRenderer.AllFoundKept | renderer/src/text_layer/renderer.rs:158-221 | an atlas answer stays valid while the atlases only gain entries and empty glyphs are only added |
| TextLayerRenderer.AllFoundSnoc | renderer/src/text_layer/renderer.rs:119-145 | one more glyph answered by the atlases keeps every lookup of the run an answer |
| TextLayerRenderer.GroupsPreparedSnoc | renderer/src/text_layer/renderer.rs:81-94 | preparing the next group keeps the groups before it prepared |
| TextLayerRenderer.Somes | renderer/src/text_layer/renderer.rs:92-93 | at most one batch per group |
| TextLayerRenderer.SomesMembers | renderer/src/text_layer/renderer.rs:92-93 | the batches kept are exactly those that exist |
| TextLayerRenderer.TextLayerRenderer.constructor | renderer/src/text_layer/renderer.rs:46-69 | no empty glyphs and no batches |
| TextLayerRenderer.TextLayerRenderer.RasterizedGlyphAtlasRect | renderer/src/text_layer/renderer.rs:158-221 | a glyph in the SDF atlas is returned from there, then one in the color atlas, then a known empty glyph gives nothing, all without changes; otherwise the glyph is rasterized: an empty result is remembered, a mask is stored in the SDF atlas, a color image in the color atlas, and a subpixel mask panics; every answer is the stored rectangle and placement of the glyph's key, or the key is remembered empty, and stored entries are never moved or dropped |
| TextLayerRenderer.TextLayerRenderer.PrepareRun | renderer/src/text_layer/renderer.rs:119-146 | the lookups and instances of the glyphs before, extended by the run's glyphs in order; every lookup is the atlases' answer for its glyph's key at the run's weight, and answers given earlier stay valid |
| TextLayerRenderer.TextLayerRenderer.PrepareRuns | renderer/src/text_layer/renderer.rs:107-155 | on success an SDF batch of the glyphs found in the SDF atlas, in the run's color, and a color batch of those found in the color atlas, each quad moved by its run's translation; none for an empty list; each lookup is the rectangle and placement stored for its glyph in the atlas it names, or the glyph is known to be empty |
| TextLayerRenderer.GroupsFoundSnoc | renderer/src/text_layer/renderer.rs:81-94 | the next group's lookups, answered by the atlases after they only gained entries, keep every group's lookups answers |
| TextLayerRenderer.TextLayerRenderer.RecordGroup | renderer/src/text_layer/renderer.rs:92-93 | the group's batches that exist are appended to the batch lists and its batches and lookups to those of the groups before it; the atlases are untouched |
| TextLayerRenderer.TextLayerRenderer.PrepareGroup | renderer/src/text_layer/renderer.rs:81-94 | one more group prepared, its existing batches appended to the batch lists; the lookups of all groups so far remain the atlases' answers |
| TextLayerRenderer.TextLayerRenderer.Prepare | renderer/src/text_layer/renderer.rs:71-97 | the batch lists are cleared and then hold the existing batches of every group, in order, each group prepared from its glyph runs whose every lookup is the atlases' answer for that glyph at the end |
| DistanceFieldGen.Offset | text/src/distance_field_gen.rs:48-57 | neighbour n's offset is its row step times the width plus its column step |
| DistanceFieldGen.FlagsAreNeighbours | text/src/distance_field_gen.rs:30-66 | each flag is the bit of its neighbour in the offset order, and ALL is their union |
| DistanceFieldGen.EdgeBetweenMeaning | text/src/distance_field_gen.rs:64-78 | an edge exactly when the two pixels lie on different sides of 128 or both are grey; the test is symmetric |
| DistanceFieldGen.FoundEdge | text/src/distance_field_gen.rs:46-81 | the probe of the enabled neighbours in offset order, the first edge ending it, with the index of any read outside the image |
| DistanceFieldGen.ProbeMeaning | text/src/distance_field_gen.rs:65-80 | when every enabled neighbour is inside the image, an edge is found exactly when some enabled neighbour forms one |
| DistanceFieldGen.CheckMaskAsWrittenReadsBefore | text/src/distance_field_gen.rs:110-113 | as written, the first-column mask of pixel (0, 1) of a padded 1 x 1 glyph enables TOP_LEFT and disables TOP, and the probe reads one byte before the image |
| DistanceFieldGen.CheckMaskKeepsInside | text/src/distance_field_gen.rs:109-126 | the corrected mask enables exactly the neighbours inside the image |
| DistanceFieldGen.NeighbourIndex | text/src/distance_field_gen.rs:48-57 | an inside neighbour's offset from the pixel pointer lands on that neighbour's index (see also line 133) |
| DistanceFieldGen.NeighbourPixel | text/src/distance_field_gen.rs:63-70 | the bytes read are the pixel and its neighbour |
| DistanceFieldGen.CheckMaskReadsInside | text/src/distance_field_gen.rs:109-130 | with the corrected mask the probe only reads inside the image |
| DistanceFieldGen.ProbeEdgeIsEdgePixel | text/src/distance_field_gen.rs:65-80 | an edge found through an enabled neighbour makes the pixel an edge pixel |
| DistanceFieldGen.EdgePixelIsProbed | text/src/distance_field_gen.rs:65-80 | every neighbour that makes a pixel an edge pixel is one the probe tests (see also lines 109-126) |
| DistanceFieldGen.EdgePixelIsFound | text/src/distance_field_gen.rs:46-81 | the probe of an edge pixel finds an edge (see also lines 109-130) |
| DistanceFieldGen.FoundIsEdgePixel | text/src/distance_field_gen.rs:46-81 | an edge the probe finds makes the pixel an edge pixel (see also lines 109-130) |
| DistanceFieldGen.FoundEdgeIsEdgePixel | text/src/distance_field_gen.rs:46-81 | with the corrected mask the probe stays inside the image and answers exactly whether the pixel is an edge pixel (see also lines 109-130) |
| DistanceFieldGen.EdgeRow | text/src/distance_field_gen.rs:103-135 | a row of the edge map holds one byte per pixel |
| DistanceFieldGen.EdgeRowAt | text/src/distance_field_gen.rs:129-131 | byte i of an edge row is 255 for an edge pixel and 0 otherwise |
| DistanceFieldGen.MarkPixel | text/src/distance_field_gen.rs:108-131 | with the first-column mask corrected to clear TOP_LEFT instead of TOP (see Findings): 255 exactly for an edge pixel, 0 otherwise |
| DistanceFieldGen.MarkRow | text/src/distance_field_gen.rs:103-135 | with the corrected first-column mask (see Findings): the row's edge bytes, the image pointer advanced by one row |
| DistanceFieldGen.MarkEdges | text/src/distance_field_gen.rs:85-140 | with the corrected first-column mask (see Findings): an edge map of the image's size whose byte at (i, j) is 255 exactly for an edge pixel |
| DistanceFieldGen.GenerateDistanceField | text/src/distance_field_gen.rs:382-420 | with the corrected first-column mask (see Findings): the edge map of the padded input, and success (see also line 527) |
| FocusPath.New | desktop/src/focus_path.rs:16-18 | a path of exactly that one component |
| FocusPath.Join | desktop/src/focus_path.rs:20-23 | one level deeper: the path followed by the component |
| FocusPath.Parent | desktop/src/focus_path.rs:25-30 | none exactly for the empty path; otherwise the path that joined with the last component gives it back |
| FocusPath.CommonPrefixLen | desktop/src/focus_path.rs:39-43 | the paths agree below it and differ at it unless one of them ends there |
| FocusPath.Exits | desktop/src/focus_path.rs:49-51 | one exit per level left |
| FocusPath.Enters | desktop/src/focus_path.rs:55-57 | one enter per level entered |
| FocusPath.WalkEnters | desktop/src/focus_path.rs:55-57 | the enters lead step by step from the common prefix down to the new path |
| FocusPath.WalkAppend | desktop/src/focus_path.rs:49-57 | following two lists of transitions is following the first and then the second |
| FocusPath.ExitsCons | desktop/src/focus_path.rs:49-51 | the exits start by leaving the path itself for its parent |
| FocusPath.WalkExits | desktop/src/focus_path.rs:49-51 | the exits lead step by step from the old path up to the common prefix |
| FocusPath.TransitionsReachTarget | desktop/src/focus_path.rs:34-62 | following the transitions, each exit to the parent and each enter one level deeper, leads from the old path to the new one |
| FocusPath.TransitionCount | desktop/src/focus_path.rs:34-62 | one transition per level left plus one per level entered; none between equal paths (see also line 79) |
| FocusPath.TransitionsShape | desktop/src/focus_path.rs:47-57 | all exits, deepest first, before all enters, shallowest first, the last being the new path |
| FocusPath.DisjointPathsExample | desktop/src/focus_path.rs:83-87 | from [1, 2] to [3, 4]: exit [1, 2], exit [1], enter [3], enter [3, 4] |
| FocusPath.SharedPrefixExample | desktop/src/focus_path.rs:88-92 | from ABCD to ABEF: exit ABCD, exit ABC, enter ABE, enter ABEF |
| FocusPath.FocusPath.constructor | desktop/src/focus_path.rs:4-5 | a path of the given components |
| FocusPath.FocusPath.Transition | desktop/src/focus_path.rs:34-62 | the transitions between the old and the new path, and the new path is the path afterwards |
| FocusTarget.Hierarchy | desktop/src/focus_target.rs:39-45 | the parent chain from a root without parent down to the target, each element's parent before it |
| FocusTarget.Target | desktop/src/focus_target.rs:48-50 | the last element; a panic exactly for the empty path |
| FocusTarget.Exits | desktop/src/focus_target.rs:65-67 | one exit per element left |
| FocusTarget.Enters | desktop/src/focus_target.rs:71-73 | one enter per element entered |
| FocusTarget.ElementsOfPathTransitions | desktop/src/focus_target.rs:54-78 | element by element, the transitions are the path transitions reduced to each path's last element (see also desktop/src/focus_path.rs:34-62) |
| FocusTarget.ParentAndChild | desktop/src/focus_target.rs:29-36 | moving to the parent exits just the child, moving to a child enters just the child |
| FocusTarget.PrefixIsCommon | desktop/src/focus_target.rs:80-87 | a path's common prefix with an extension of it is the whole path |
| FocusTarget.CommonPrefixSymmetric | desktop/src/focus_target.rs:80-87 | the common prefix does not depend on the order of the two paths |
| FocusTarget.DeeperTargetExample | desktop/src/focus_target.rs:107-108 | from [1] to [1, 2, 3]: enter [1, 2], enter [1, 2, 3]; and back: exit [1, 2, 3], exit [1, 2] |
| FocusTarget.Path.constructor | desktop/src/focus_target.rs:10-11 | a path of the given elements |
| FocusTarget.Path.Transition | desktop/src/focus_target.rs:54-78 | the element transitions between the old and the new path, which becomes the path |
| FocusTarget.Focused.constructor | desktop/src/focus_target.rs:24 | the given target |
| FocusTarget.Focused.Transition | desktop/src/focus_target.rs:29-36 | the transitions between the two targets' parent chains; the target becomes the new one |
| FocusManager.FromViewPath | desktop/src/focus_manager.rs:23-30 | the view's instance with that view focused |
| FocusManager.PathUnfocusView | desktop/src/focus_manager.rs:132-138 | the path without a view, with one view unfocus exactly when a view was focused |
| FocusManager.FocusedInstance | desktop/src/focus_manager.rs:46-48 | some exactly when an instance is focused, namely that instance |
| FocusManager.FocusedView | desktop/src/focus_manager.rs:50-53 | some exactly when a view is focused inside the focused instance |
| FocusManager.ApplyAppend | desktop/src/focus_manager.rs:6-11 | applying two lists of transitions is applying the first and then the second |
| FocusManager.PathFocusViewApplies | desktop/src/focus_manager.rs:118-130 | focusing a view within an instance ends at that view and its transitions are valid from the old one |
| FocusManager.UnfocusApplies | desktop/src/focus_manager.rs:99-114 | unfocusing validly leads to nothing focused, the view before its instance |
| FocusManager.FocusReachesTarget | desktop/src/focus_manager.rs:59-79 | focusing ends exactly at the target, and its transitions, applied one by one, lead there validly from the old focus |
| FocusManager.UnfocusViewKeepsInstance | desktop/src/focus_manager.rs:81-97 | the instance stays focused, no view is, and a transition happens exactly when a view was focused |
| FocusManager.FocusOrder | desktop/src/focus_manager.rs:59-79 | another instance: the old view and then the old instance are unfocused before the new instance and then its view are focused; within the same instance only view transitions; nothing for the current focus (see also lines 118-130) |
| FocusManager.FocusManager.constructor | desktop/src/focus_manager.rs:11-44 | nothing focused |
| FocusManager.FocusManager.Focus | desktop/src/focus_manager.rs:59-79 | the new focus and the transitions of focusing the target |
| FocusManager.FocusManager.UnfocusView | desktop/src/focus_manager.rs:81-97 | the focus and transitions of unfocusing the view only |
| FocusManager.FocusManager.Unfocus | desktop/src/focus_manager.rs:99-114 | nothing focused afterwards, with the transitions of unfocusing |
| EventRouter.Announce | desktop/src/event_router.rs:236-245 | one directed event per focus-path transition, in the same order (see also desktop/src/event_router.rs:256-266) |
| EventRouter.Finalize | desktop/src/event_router.rs:303-313 | the log is passed through; a focus-changed report is present exactly when the focus before and after differ, and then carries the new focus |
| EventRouter.FocusEventsFollowTransitions | desktop/src/event_router.rs:229-246 | each exited path gets `Focused(false)`, each entered path `Focused(true)`, and the transitions walk the old focus to the new one |
| EventRouter.OuterFocusRoundTrip | desktop/src/event_router.rs:198-221 | losing then regaining the window focus saves, empties and restores the keyboard focus, exiting and re-entering it |
| EventRouter.OuterFocusRestoresOnlyEmpty | desktop/src/event_router.rs:198-225 | regaining the window focus keeps a keyboard focus that is already set; a redundant change is a no-op; the pointer focus never changes; the outer state becomes focused exactly when told so |
| EventRouter.CursorMoveFocus | desktop/src/event_router.rs:88-140 | without a button pressed the pointer focus becomes the hit path and the move goes to it last; with one pressed it stays and one move is sent, or, if the old target is not hit, it empties with only cursor-left events |
| EventRouter.PressMovesKeyboardFocus | desktop/src/event_router.rs:143-165 | a press moves the keyboard focus to the pointer focus, sending only focus events when they differ and the press itself when they agree |
| EventRouter.KeyboardEventsGoToKeyboardFocus | desktop/src/event_router.rs:180-187 | keyboard and IME events go to the keyboard focus, modifier changes are broadcast, no state changes |
| EventRouter.FocusReported | desktop/src/event_router.rs:66-70 | focusing reports a change exactly when the path differs, and sends nothing when it does not |
| EventRouter.SetFocus | desktop/src/event_router.rs:229-267 | the new focus is the new path and the log announces the path transitions with the given exit/enter events |
| EventRouter.EventRouter.constructor | desktop/src/event_router.rs:42-50 | both focus paths empty, the outer focus focused |
| EventRouter.EventRouter.Focus | desktop/src/event_router.rs:66-70 | only the keyboard focus changes, to the path; the result is the finalized focus events |
| EventRouter.EventRouter.SetOuterFocus | desktop/src/event_router.rs:198-226 | the new router state and log are those of the outer-focus state machine |
| EventRouter.EventRouter.Process | desktop/src/event_router.rs:72-196 | the new state is that of the routing function, the result its finalized log; a cursor move without a known position panics |
| ColorAtlasRenderer.Batch | renderer/src/text_layer/color_atlas/renderer.rs:67-113 | no batch exactly for no instances; otherwise four vertices per instance, each corner with its atlas-rectangle corner as texture coordinate, and one quad per instance |
| ColorAtlasRenderer.RenderAddressesBatch | renderer/src/text_layer/color_atlas/renderer.rs:121-136 | the drawn range of six indices per quad fits the index buffer, and every drawn index addresses one of the batch's vertices |
| SdfAtlasRenderer.Batch | renderer/src/text_layer/sdf_atlas/renderer.rs:66-117 | no batch exactly for no instances; otherwise four vertices per instance with the atlas-rectangle corners as texture coordinates and the instance's color, and one quad per instance |
| SdfAtlasRenderer.RenderAddressesBatch | renderer/src/text_layer/sdf_atlas/renderer.rs:132-151 | the drawn range of six indices per quad fits the index buffer, and every drawn index addresses one of the batch's vertices |
| SceneVersioning.Versioned.constructor | renderer/src/scene/versioning.rs:20-25 | holds the value at the given version |
| SceneVersioning.Versioned.Update | renderer/src/scene/versioning.rs:27-32 | a newer version replaces value and version; any other version fails the assertion and changes nothing |
| InputProgress.TryMap | input/src/progress.rs:13-19 | a Proceed value is mapped and fails exactly when the function rejects it; Commit and Cancel are kept |
| InputProgress.Map | input/src/progress.rs:21-27 | the variant is kept and a Proceed value is mapped |
| InputProgress.AgreesWithUtil | input/src/progress.rs:12-28 | the input crate's `map` and `try_map` agree with the util crate's |
| InputProgress.FunctionIgnoredAtEnd | input/src/progress.rs:21-27 | for Commit and Cancel the mapped function does not matter |
| SceneTimeline.Timeline.constructor | scene/src/timeline.rs:33-41 | records the creation of the id with the value's uploaded part and keeps the value |
| SceneTimeline.Timeline.Update | scene/src/timeline.rs:43-50 | records one update of the id with the new value's uploaded part |
| SceneTimeline.Timeline.Drop | scene/src/timeline.rs:18-22 | records the deletion of the id |
| EventSourcing.Parent | desktop/src/event_sourcing/mod.rs:10-15 | both kinds of insertion name their parent |
| EventSourcing.MapInsertion | desktop/src/event_sourcing/mod.rs:17-22 | maps the parent and keeps the kind and the index |
| EventSourcing.MapInsertionFunctor | desktop/src/event_sourcing/mod.rs:17-22 | mapping with the identity changes nothing and two mappings compose |
| EventSourcing.MapCommands | desktop/src/event_sourcing/mod.rs:31-33 | the same number of commands, each mapped in place |
| EventSourcing.MapTransaction | desktop/src/event_sourcing/mod.rs:31-33 | keeps the number and the order of the commands, each mapped |
| EventSourcing.MapTransactionAppend | desktop/src/event_sourcing/mod.rs:31-33 | mapping a concatenation maps each part |
| BandPresenter.IndexOf | desktop/src/band_presenter.rs:109-114 | none exactly when the id is absent; otherwise the index of its first occurrence |
| BandPresenter.Without | desktop/src/band_presenter.rs:143 | exactly the other ids remain, and the list does not grow |
| BandPresenter.WithoutDistinct | desktop/src/band_presenter.rs:143 | removing an id from a list without duplicates leaves it without duplicates |
| BandPresenter.EmptyMeansAllDisappearing | desktop/src/band_presenter.rs:22-24 | a valid band is empty exactly when all its instances are disappearing (see also desktop/src/band_presenter.rs:36-38) |
| BandPresenter.NewPresenter | desktop/src/band_presenter.rs:88-103 | the new presenter is appearing, with the originating presenter's panel size if that exists and the default size otherwise |
| BandPresenter.InsertPosition | desktop/src/band_presenter.rs:109-114 | the insert position lies within the band |
| BandPresenter.PrimaryInstanceProperties | desktop/src/band_presenter.rs:46-73 | fails exactly when the band has instances; otherwise the instance is the only one, presenting the view at the view's size; validity is kept |
| BandPresenter.PresentInstanceProperties | desktop/src/band_presenter.rs:81-120 | fails exactly for an instance already present, changing nothing; otherwise adds the new presenter right after the originating instance, or at the end, keeping the band valid |
| BandPresenter.RepresentingResetsPresenter | desktop/src/band_presenter.rs:105-107 | as written, presenting a presenting instance again errors yet resets its presenter to appearing; the corrected operation changes nothing |
| BandPresenter.PresentInstanceAsWrittenDiffers | desktop/src/band_presenter.rs:81-120 | for every valid band, present_instance as written returns what the corrected operation returns, differs from it only by replacing an already present instance's presenter, and keeps the band valid exactly unless that instance was disappearing |
| BandPresenter.RepresentingDisappearingBreaksBand | desktop/src/band_presenter.rs:105-117 | as written, presenting a disappearing instance again leaves an appearing instance outside the band's order |
| BandPresenter.HideInstanceProperties | desktop/src/band_presenter.rs:123-146 | succeeds exactly for a presenting instance, which becomes disappearing and leaves the order; otherwise nothing changes; validity is kept |
| BandPresenter.PresentViewProperties | desktop/src/band_presenter.rs:148-174 | succeeds exactly for an appearing instance, which then presents the view at the view's size; otherwise nothing changes; the order never changes |
| BandPresenter.BandPresenter.constructor | desktop/src/band_presenter.rs:17-25 | an empty, valid band |
| BandPresenter.BandPresenter.IsEmpty | desktop/src/band_presenter.rs:36-38 | true exactly when no instance takes up space |
| BandPresenter.BandPresenter.PresentPrimaryInstance | desktop/src/band_presenter.rs:46-73 | the new band and result are those of the primary-instance function |
| BandPresenter.BandPresenter.Position | desktop/src/band_presenter.rs:109-113 | the loop finds the first index holding the originating id, or none |
| BandPresenter.BandPresenter.PresentInstance | desktop/src/band_presenter.rs:81-120 | the new band and result are those of the corrected present-instance function |
| BandPresenter.BandPresenter.HideInstance | desktop/src/band_presenter.rs:123-146 | the new band and result are those of the hide-instance function |
| BandPresenter.BandPresenter.PresentView | desktop/src/band_presenter.rs:148-174 | a non-primary view panics; otherwise the new band and result are those of the present-view function |
| BandPresenter.BandPresenter.HideView | desktop/src/band_presenter.rs:176-178 | always the not-supported error |
| ViewManager.Position | desktop/src/view_manager.rs:39 | none exactly when the id is not listed; otherwise the index of its first occurrence |
| ViewManager.Get | desktop/src/view_manager.rs:55-57 | some exactly when the view is registered, and then its info |
| ViewManager.EffectivePacing | desktop/src/view_manager.rs:73-83 | smooth exactly when some view paces smoothly |
| ViewManager.EmptyConsistent | desktop/src/view_manager.rs:15-24 | a new registry is consistent |
| ViewManager.AddViewProperties | desktop/src/view_manager.rs:26-35 | adding a new view registers it under its instance with the default pacing, lists it last for that instance, leaves other views alone and keeps the registry consistent |
| ViewManager.RemoveViewProperties | desktop/src/view_manager.rs:37-44 | a view the instance lists is unregistered and unlisted; otherwise nothing changes; other views stay |
| ViewManager.RemoveViewKeepsConsistent | desktop/src/view_manager.rs:37-44 | removing a view keeps the registry consistent |
| ViewManager.RemoveInstanceViewsProperties | desktop/src/view_manager.rs:46-52 | every view the instance lists is unregistered and no other, the instance lists nothing, consistency is kept |
| ViewManager.UpdatePacingProperties | desktop/src/view_manager.rs:63-69 | fails exactly for an unknown view; otherwise only that view's pacing changes; consistency is kept |
| ViewManager.SmoothDominates | desktop/src/view_manager.rs:71-83 | a view set to smooth makes the effective pacing smooth; without views it is fast |
| ViewManager.ViewManager.constructor | desktop/src/view_manager.rs:22-24 | an empty registry |
| ViewManager.ViewManager.AddView | desktop/src/view_manager.rs:26-35 | the new registry is the add-view function's |
| ViewManager.ViewManager.RemoveView | desktop/src/view_manager.rs:37-44 | the loop finds the view's position and the new registry is the remove-view function's |
| ViewManager.ViewManager.RemoveInstanceViews | desktop/src/view_manager.rs:46-52 | the loop removes every listed view and the new registry is the remove-instance-views function's |
| ViewManager.ViewManager.UpdatePacing | desktop/src/view_manager.rs:63-69 | the result and new registry are the update-pacing function's |
| LayoutTrees.Stacked | layout/src/layouter.rs:150-160 | a container's size has the rank's number of components |
| LayoutTrees.RunningOffset | layout/src/layouter.rs:145-148 | the running offset has the rank's number of components |
| LayoutTrees.MaxAtBounds | layout/src/layouter.rs:155-158 | the maximum bounds every child's component and is one of them, or 0 without children |
| LayoutTrees.StackedSize | layout/src/layouter.rs:150-160 | a container's size is the sum of its children's sizes along the layout axis and their maximum along every other axis |
| LayoutTrees.Combine | layout/src/layouter.rs:150-160 | one child keeps the rank |
| LayoutTrees.StackedStep | layout/src/layouter.rs:137-161 | growing by one more child gives the stacked size of all children |
| LayoutTrees.RunningOffsetStep | layout/src/layouter.rs:145-148 | advancing by one child's size along the axis gives the running offset of all children |
| LayoutTrees.SizesOf | layout/src/layouter.rs:138-143 | the sizes of the children, in order |
| LayoutTrees.ArrangedAll | layout/src/layouter.rs:137-161 | arranged children have sizes of the rank |
| LayoutTrees.AddOffset | layout/src/layouter.rs:183-188 | the size is kept and every offset component is moved by the given offset |
| LayoutTrees.AddZeroOffset | layout/src/layouter.rs:183-188 | the zero offset leaves a box where it is |
| LayoutTrees.PlaceRec | layout/src/layouter.rs:165-181 | what is left of the trace is a prefix of it |
| LayoutTrees.PlaceChildren | layout/src/layouter.rs:175-180 | what is left of the trace is a prefix of it |
| LayoutTrees.EncodeAllRanked | layout/src/layouter.rs:137-143 | the trace of arranged children has boxes of the rank |
| LayoutTrees.EncodeRanked | layout/src/layouter.rs:137-143 | the trace of an arranged tree has boxes of the rank |
| LayoutTrees.PlaceEncoded | layout/src/layouter.rs:165-181 | placing the trace of a tree pops exactly that tree's entries, leaves what was recorded before, and emits the node first, then its children last first |
| LayoutTrees.PlaceChildrenEncoded | layout/src/layouter.rs:175-180 | placing the trace of children emits them last first, consuming exactly their entries |
| LayoutTrees.EncodeNested | layout/src/layouter.rs:37-44 | a container's trace is its children's followed by its own entry (see also layout/src/layouter.rs:137-143) |
| LayoutTrees.PlaceChildrenStep | layout/src/layouter.rs:175-180 | one turn of the loop pops the last entry, places it, then places the rest |
| LayoutTrees.Shifted | layout/src/layouter.rs:183-188 | shifting keeps the number of boxes |
| LayoutTrees.ShiftedAppend | layout/src/layouter.rs:183-188 | shifting distributes over concatenation |
| LayoutTrees.SumOffsets | layout/src/layouter.rs:183-188 | the sum of two offsets keeps the rank |
| LayoutTrees.PlacedRanked | layout/src/layouter.rs:165-181 | every placed box of an arranged tree has the rank |
| LayoutTrees.PlacedReversedRanked | layout/src/layouter.rs:175-180 | every placed box of arranged children has the rank |
| LayoutTrees.PlacedShift | layout/src/layouter.rs:96-133 | placing a tree at an offset moved by some vector moves every emitted box by that vector (see also layout/src/layouter.rs:183-188) |
| LayoutTrees.PlacedReversedShift | layout/src/layouter.rs:175-188 | placing children at an offset moved by some vector moves every emitted box by that vector |
| Layouters.Inner.constructor | layout/src/layouter.rs:65-81 | a container with no children at offset zero and empty size, holding the given trace |
| Layouters.Inner.Lend | layout/src/layouter.rs:67-69 | hands out the trace, keeping offset, size and children |
| Layouters.Inner.Child | layout/src/layouter.rs:137-162 | pushes an entry at the current offset with the child's size; panics exactly when the axis is outside the rank; otherwise the child is recorded and offset and size follow |
| Layouters.Inner.Advance | layout/src/layouter.rs:145-161 | offset advanced, size grown and count incremented keep the recorded state |
| Layouters.Grown | layout/src/layouter.rs:150-160 | the loop over the components computes the combined size |
| Layouters.RecordsStep | layout/src/layouter.rs:137-162 | a child recorded at the running offset keeps the recorded state |
| Layouters.RecordedStep | layout/src/layouter.rs:137-162 | one more child at the current offset: children stay arranged and stacked, and offset and size are those of all children |
| Layouters.TraceStep | layout/src/layouter.rs:139-143 | the pushed entry completes the trace of the children |
| Layouters.ChildStep | layout/src/layouter.rs:137-162 | one more child at the running offset keeps the children arranged and stacked |
| Layouters.EncodeAllStep | layout/src/layouter.rs:139-143 | the trace of children with one more is the old trace followed by the new child's |
| Layouters.Layouter.New | layout/src/layouter.rs:65-82 | takes the parent's trace, if any, leaving the parent otherwise unchanged; starts with no children at offset zero and empty size |
| Layouters.Layouter.Root | layout/src/layouter.rs:61-63 | a fresh root layouter with an empty trace |
| Layouters.Layouter.Container | layout/src/layouter.rs:88-90 | a fresh nested layouter borrowing this one's state, which is suspended |
| Layouters.Layouter.Leaf | layout/src/layouter.rs:84-86 | records a leaf at the running offset; panics exactly when the axis is outside the rank |
| Layouters.Layouter.Size | layout/src/layouter.rs:92-94 | the stacked size of the children recorded so far |
| Layouters.Layouter.Drop | layout/src/layouter.rs:37-44 | a nested layouter hands the trace back and is recorded as one child of the parent, a container with its own size and children; dropping the root does nothing |
| Layouters.Layouter.Place | layout/src/layouter.rs:96-133 | panics exactly on a non-root; otherwise emits the placed tree: root first, then children last first, all moved by the offset |
| Layouters.PrependedNothing | layout/src/layouter.rs:175-180 | prepending nothing leaves an outcome alone |
| Layouters.PrependedAssociates | layout/src/layouter.rs:175-180 | prepending twice is prepending the concatenation |
| Layouters.AddOffsetTo | layout/src/layouter.rs:183-188 | the loop computes the moved box |
| Layouters.ChildrenTurn | layout/src/layouter.rs:175-180 | one turn of the loop: a panic in the child is a panic of the whole, otherwise the loop goes on from what is left |
| Layouters.PlaceRecInto | layout/src/layouter.rs:165-181 | panics exactly where the placing function does, and otherwise emits its boxes and leaves its trace |
| Layouters.PlaceChildrenInto | layout/src/layouter.rs:175-180 | the loop panics exactly when the trace runs out first, and otherwise emits the children's boxes |
| LayouterExamples.HorizontalArithmetic | layout/src/layouter.rs:207-222 | the offsets and size of three boxes in a row |
| LayouterExamples.HorizontalPlaced | layout/src/layouter.rs:207-222 | the row is arranged and placed as root, then leaves 3, 2, 1 at their rects |
| LayouterExamples.FillRow | layout/src/layouter.rs:208-212 | three leaves recorded side by side, size 450 by 50 |
| LayouterExamples.HorizontalLeaves | layout/src/layouter.rs:207-222 | the layouter emits the rects the test expects |
| LayouterExamples.PairArithmetic | layout/src/layouter.rs:250-262 | the offsets and size of two squares side by side |
| LayouterExamples.FillPair | layout/src/layouter.rs:252-254 | two squares recorded side by side, size 30 by 20 |
| LayouterExamples.PairPlaced | layout/src/layouter.rs:250-262 | placed at (100, 200) every box, the root's included, is moved by it |
| LayouterExamples.CustomOffset | layout/src/layouter.rs:250-262 | the layouter emits the rects the test expects |
| LayouterExamples.EmptyRoot | layout/src/layouter.rs:241-248 | a root without children emits one empty box |
| LayouterExamples.DepthAxisPanics | layout/src/layouter.rs:277-284 | the depth axis with two-dimensional boxes panics on the first leaf |
| LayouterExamples.NestedArithmetic | layout/src/layouter.rs:287-314 | the offsets and sizes of a column inside a row |
| LayouterExamples.ColumnPlaced | layout/src/layouter.rs:287-314 | the nested column is arranged and placed before its leaves 4, 3 |
| LayouterExamples.NestedPlaced | layout/src/layouter.rs:287-314 | the row with a nested column is placed as root, 5, 2, 4, 3, 1 |
| LayouterExamples.FillColumn | layout/src/layouter.rs:293-297 | two leaves recorded one below the other, size 25 by 65 |
| LayouterExamples.NestColumn | layout/src/layouter.rs:293-297 | a nested vertical layouter, dropped, records the column as the row's second child |
| LayouterExamples.FillNestedRow | layout/src/layouter.rs:288-299 | a leaf, the nested column and another leaf, size 135 by 65 |
| LayouterExamples.NestedContainerWithSiblings | layout/src/layouter.rs:287-314 | the layouter emits the rects the test expects |
| LayouterExamples.SingleLeaf | layout/src/layouter.rs:196-205 | one leaf: root and leaf both at the origin with the leaf's size |
| LayouterExamples.SingleLeafPlaced | layout/src/layouter.rs:196-205 | the root around one leaf is arranged and placed before it |
| LayouterExamples.VerticalArithmetic | layout/src/layouter.rs:224-239 | the offsets and size of three boxes in a column |
| LayouterExamples.VerticalPlaced | layout/src/layouter.rs:224-239 | the column is arranged and placed as root, then leaves 3, 2, 1 at their rects |
| LayouterExamples.FillStack | layout/src/layouter.rs:226-229 | three leaves recorded one below the other, size 200 by 120 |
| LayouterExamples.VerticalContainer | layout/src/layouter.rs:224-239 | the layouter emits the rects the test expects |
| LayouterExamples.SizeAccumulation | layout/src/layouter.rs:264-275 | widths 10, 20, 30 add up to 60 and the height is the largest, 50 |
| Coordinator.AnimationCoordinator.constructor | animation/src/coordinator.rs:55-64 | not animating, no cycle, ending time now |
| Tickery.Tickery.constructor | animation/src/tickery.rs:26-34 | the tick is now and there are no users |
| TimeScale.TimeScale.constructor | animation/src/time_scale.rs:17-24 | the coordinator's current cycle time, nothing passed yet |
| AnimationTimeline.TimelineInner.constructor | animation/src/timeline.rs:18-27 | the value, no pending and no running animations |
| Animated.Animated.constructor | animation/src/animated.rs:21-30 | the value with an empty animation stack |
| BlendedAnimations.BlendedAnimation.constructor | animation/src/blended_animation.rs:10-16 | an empty stack |
| EventHistory.EventHistory.constructor | input/src/event_history.rs:21-27 | no records, id 0, the given maximum age |
| EventAggregator.EventAggregator.constructor | input/src/event_aggregator.rs:17-22 | no pointing devices, the given keyboard modifiers |
| ShellScene.Scene.constructor | shell/src/scene.rs:20-25 | no changes recorded, the given coordinator |
| ChangeSurface.Enumerate | scene/src/change_surface.rs:39-41 | lists every id of the set exactly once, in no particular order |
| ChangeSurface.ChangedIds.constructor | scene/src/change_surface.rs:27-30 | nothing recorded |
| ChangeSurface.ChangedIds.Add | scene/src/change_surface.rs:34-36 | the id joins the recorded set; recording twice is recording once |
| ChangeSurface.ChangedIds.TakeAll | scene/src/change_surface.rs:39-41 | yields exactly the recorded ids, each once, and leaves nothing recorded |
| Transactions.TransactionManager.constructor | renderer/src/transactions.rs:6-9 | starts at version 0 |
| Transactions.TransactionManager.NewTransaction | renderer/src/transactions.rs:12-15 | advances the version by one and hands out the advanced version |
| Transactions.TransactionManager.CurrentTransaction | renderer/src/transactions.rs:17-21 | hands out the current version and changes nothing |
| Transactions.TransactionManager.Current | renderer/src/transactions.rs:23-25 | the current version |
| Transactions.Issued | renderer/src/transactions.rs:12-15 | one version per transaction handed out |
| Transactions.IssuedIncreasing | renderer/src/transactions.rs:12-15 | successive transactions get strictly increasing versions, the k-th one k + 1 above the start |
| AtlasRenderer.VerticesLength | renderer/src/text_layer/atlas_renderer.rs:79-83 | four vertices per instance |
| AtlasRenderer.VerticesAt | renderer/src/text_layer/atlas_renderer.rs:79-83 | vertex 4q + k is corner k of instance q |
| AtlasRenderer.Batch | renderer/src/text_layer/atlas_renderer.rs:71-104 | no batch exactly for no instances; otherwise every instance's four vertices in order and one quad per instance |
| LayoutSpecs.Map.constructor | desktop/src/aggregates/layout_specs.rs:11-17 | an empty map |
| LayoutSpecs.Map.Insert | desktop/src/aggregates/layout_specs.rs:20-25 | stores the value in any case and fails exactly when the key was present |
| LayoutSpecs.Map.InsertOrUpdate | desktop/src/aggregates/layout_specs.rs:27-29 | stores the value |
| LayoutSpecs.Map.Remove | desktop/src/aggregates/layout_specs.rs:31-39 | fails exactly on a missing key, changing nothing; otherwise removes the entry |
| LayoutSpecs.Map.Get | desktop/src/aggregates/layout_specs.rs:41-43 | the stored value, none exactly for a missing key |
| SceneChange.DestructiveChange | scene/src/change.rs:16-24 | reports exactly the deletions, with the type of their variant and their id |
| SceneChange.DestructiveChangeInjective | scene/src/change.rs:16-24 | a reported pair identifies the deleted object's kind and id |
| FocusTree.Path.constructor | desktop/src/focus_tree.rs:32-34 | a path of one component |
| FocusTree.Path.Push | desktop/src/focus_tree.rs:36-38 | one component deeper |
| FocusTree.Path.Take | desktop/src/focus_tree.rs:45-47 | returns the path and leaves it empty |
| FocusTree.FocusTree.constructor | desktop/src/focus_tree.rs:12-18 | nothing focused |
| FocusTree.FocusTree.Focus | desktop/src/focus_tree.rs:63-93 | the transitions are the exits from the old path and the enters into the new one that the focus path's transition prescribes, and the new path becomes the focused one |
| DimensionalTypes.EmptySize | layout/src/dimensional_types.rs:56-64 | every component is 0 |
| DimensionalTypes.ZeroOffset | layout/src/dimensional_types.rs:43-51 | every component is 0 |
| DimensionalTypes.EmptyBox | layout/src/dimensional_types.rs:21-24 | the zero offset and the empty size |
| DimensionalTypes.ZeroThickness | layout/src/dimensional_types.rs:34-37 | empty leading and trailing sizes |
| DimensionalTypes.AddAssign | layout/src/dimensional_types.rs:66-72 | the array becomes the componentwise sum of its old contents and the right operand |
| DimensionalTypes.Add | layout/src/dimensional_types.rs:74-81 | each component is the sum of the operands' components |
| DimensionalTypes.EmptyIsIdentity | layout/src/dimensional_types.rs:63-81 | adding the empty size on either side changes nothing |
| DimensionalTypes.SumCommutesAndAssociates | layout/src/dimensional_types.rs:66-81 | addition commutes and associates |
| DimensionalTypes.SumGrows | layout/src/dimensional_types.rs:66-72 | a sum is at least each operand, component by component (sizes are unsigned) |
| ShapesText.NamedWeightsAreHundreds | shapes/src/text.rs:95-105 | the named weights run from 100 to 900 in steps of 100, normal at 400 and bold at 700 |
| ShapesText.Size | shapes/src/text.rs:87-89 | the run's width, and a height from the highest ascent to the lowest descent |
| ShapesText.PlaceGlyph | shapes/src/text.rs:46-56 | the image's left is the glyph's left plus the placement's; its top hangs the placement's top above the baseline; width and height are the placement's |
| ShapesText.PlacedGlyphInsideRun | shapes/src/text.rs:46-56 | a glyph on the run's line whose image stays within the ascent and descent lies vertically inside the run's box |
| ShapesText.PlaceGlyphFollowsPosition | shapes/src/text.rs:46-56 | moving the glyph's box moves the placed rectangle by the same amount |
| ShapesText.PixelBoundsAt | shapes/src/text.rs:136-142 | the unit square of the pixel at the offset from the glyph's box |
| ShapesText.PixelBoundsTile | shapes/src/text.rs:136-142 | neighbouring pixels' squares share an edge |
| UtilProgress.Proceeds | util/src/progress.rs:52-58 | the carried value, exactly for Proceed |
| UtilProgress.Ends | util/src/progress.rs:48-50 | true exactly for Commit and Cancel |
| UtilProgress.Map | util/src/progress.rs:40-46 | the variant is kept and a Proceed value is mapped |
| UtilProgress.TryMap | util/src/progress.rs:13-19 | a Proceed value is mapped and fails exactly when the function rejects it; Commit and Cancel are kept |
| UtilProgress.TryMapOr | util/src/progress.rs:29-38 | a rejected Proceed value becomes `or`; an accepted one is mapped; Commit and Cancel are kept |
| UtilProgress.TryMapOrCancel | util/src/progress.rs:21-23 | a rejected Proceed value cancels; otherwise as `try_map` |
| UtilProgress.TryMapOrCommit | util/src/progress.rs:25-27 | a rejected Proceed value commits; otherwise as `try_map` |
| UtilProgress.TryMapOrIsTryMapUnwrapOr | util/src/progress.rs:13-38 | `try_map_or` is `try_map` with the rejection replaced by `or` |
| UtilProgress.MapIsTotalTryMap | util/src/progress.rs:13-46 | `map` is `try_map` with a function that never rejects |
| UtilProgress.MapCompose | util/src/progress.rs:40-46 | mapping twice is mapping once with the composition |
| UtilProgress.EndsUnaffectedByMap | util/src/progress.rs:40-50 | mapping does not change whether the progress has ended, and the function is not consulted once it has |
| LegacyGlyphAtlas.LegacyGlyphAtlas.constructor | renderer/src/glyph/atlas.rs:29-40 | an empty atlas whose side is the smaller of 1024 and the device limit, with an allocator of that side |
| LegacyGlyphAtlas.LegacyGlyphAtlas.Exists | renderer/src/glyph/atlas.rs:42-44 | true exactly when an image is stored for the key |
| LegacyGlyphAtlas.LegacyGlyphAtlas.Grow | renderer/src/glyph/atlas.rs:73-96 | fails exactly when doubling is capped at the current side, changing nothing; otherwise the side doubles up to the limit, the allocator grows to it and the texture again holds every stored image at its position |
| LegacyGlyphAtlas.LegacyGlyphAtlas.Store | renderer/src/glyph/atlas.rs:47-71 | on success the key exists with its image and every other entry stays; on failure nothing is stored; the texture always holds exactly the stored images |
| IdTable.Stored | renderer/src/scene/id_table.rs:12-18 | the rows grow with empty rows up to the id, the id holds the value, and every other row keeps its content |
| IdTable.Taken | renderer/src/scene/id_table.rs:25-32 | the row at the id, which is emptied, nothing beyond the table, every other row unchanged |
| IdTable.ValuesArePresentRows | renderer/src/scene/id_table.rs:34-36 | iteration yields exactly the values of the present rows |
| IdTable.ValuesCount | renderer/src/scene/id_table.rs:34-36 | at most one value per row, and one per row when all rows are present |
| IdTable.TakeAfterPut | renderer/src/scene/id_table.rs:12-32 | taking a row just put returns its value and leaves that row empty |
| IdTable.IdTable.constructor | renderer/src/scene/id_table.rs:6-9 | no rows |
| IdTable.IdTable.Put | renderer/src/scene/id_table.rs:12-18 | the rows become `Stored` of the old ones |
| IdTable.IdTable.Take | renderer/src/scene/id_table.rs:25-32 | returns and empties the row, as `Taken` |
| IdTable.IdTable.Remove | renderer/src/scene/id_table.rs:20-22 | empties the row, as `take` does |
| GlyphCache.RenderGlyphFrom | renderer/src/glyph/glyph_cache.rs:67-94 | nothing for a missing, empty or non-mask image; otherwise the distance field (failing when it fails) or the padded image, whose placement the glyph takes, with the pipeline the parameters choose |
| GlyphCache.GlyphCache.constructor | renderer/src/glyph/glyph_cache.rs:20-24 | nothing cached, nothing marked |
| GlyphCache.GlyphCache.Get | renderer/src/glyph/glyph_cache.rs:29-45 | marks the key, returns its rendering, and renders (and caches) exactly when it was not cached |
| GlyphCache.GlyphCache.FlushUnused | renderer/src/glyph/glyph_cache.rs:48-51 | keeps exactly the cached entries marked since the last flush, unchanged, and clears the marks |
| GlyphCache.GetTwiceRendersOnce | renderer/src/glyph/glyph_cache.rs:29-45 | two lookups of one key give the same glyph and render at most once, exactly when it was not cached |
| TransformResolver.ResolvedComposes | scene/src/transform_resolver.rs:29-33 | a root resolves to its local transform, a child to its parent's resolved transform composed with its own |
| TransformResolver.TransformResolver.constructor | scene/src/transform_resolver.rs:8-11 | nothing memoised |
| TransformResolver.TransformResolver.ConsistentChain | scene/src/transform_resolver.rs:14-37 | in a consistent memo every ancestor of a memoised location is memoised |
| TransformResolver.TransformResolver.Resolve | scene/src/transform_resolver.rs:14-37 | a memoised transform is returned as it is, with the memo unchanged; otherwise the result is memoised; the memo keeps what it had, and a consistent memo stays consistent, gives the final transform and afterwards holds the location's whole parent chain |
| ToolsVersioning.Resolved | renderer/src/tools/versioning.rs:27-33 | panics exactly when the head version is behind; otherwise stamps the head version, recomputing exactly when the stamp was behind and keeping the contents when it was current |
| ToolsVersioning.Updated | renderer/src/tools/versioning.rs:35-39 | panics exactly when the version is not newer; otherwise the new value at the new version |
| ToolsVersioning.ResolveTwice | renderer/src/tools/versioning.rs:27-33 | a second resolve at the same head version does not call the resolver and returns the same contents |
| ToolsVersioning.ResolveMonotone | renderer/src/tools/versioning.rs:27-33 | resolving at head versions that never go back never panics, and the stamp follows the head |
| ToolsVersioning.Versioned.constructor | renderer/src/tools/versioning.rs:20-25 | holds the value at the given version |
| ToolsVersioning.Versioned.Resolve | renderer/src/tools/versioning.rs:27-33 | calls the resolver exactly when the stamp is behind the head; the new contents are `Resolved` of the old, and a panic changes nothing |
| ToolsVersioning.Versioned.Update | renderer/src/tools/versioning.rs:35-39 | the new contents are `Updated` of the old; a failed assertion changes nothing |
| ToolsVersioning.Computed.Default | renderer/src/tools/versioning.rs:71-81 | validated at 0, holding the default value at version 0 |
| RendererStats.DivDurationIsFloor | renderer/src/stats.rs:62 | dividing a duration by dividing its seconds and nanoseconds separately and then the two remainders together gives the total divided by the divisor, rounded down |
| RendererStats.Mean | renderer/src/stats.rs:58-63 | none exactly without samples; a panic exactly when the count truncated to 32 bits is zero; otherwise the sum divided by the truncated count, rounded down |
| RendererStats.MeanOfFewSamples | renderer/src/stats.rs:58-63 | with fewer than 2^32 samples the mean exists and is the sum divided by their number, rounded down |
| RendererStats.Counted | renderer/src/stats.rs:14-18 | all samples but those of the first ten frames |
| RendererStats.CountedSnoc | renderer/src/stats.rs:14-18 | a further sample is counted once the first ten frames are over |
| RendererStats.SummaryDescribesCounted | renderer/src/stats.rs:14-28 | the statistics hold the number, sum, maximum and minimum of the counted samples, and stay at their default while nothing is counted |
| RendererStats.FirstFramesIgnored | renderer/src/stats.rs:14-18 | the samples of the first ten frames leave the statistics at their default and no mean (see also lines 58-63) |
| RendererStats.MaxOf | renderer/src/stats.rs:25 | the largest of the samples |
| RendererStats.MinOf | renderer/src/stats.rs:20-24 | the smallest of the samples |
| RendererStats.MeasureSeries.constructor | renderer/src/stats.rs:7-11 | no samples, statistics at their default |
| RendererStats.MeasureSeries.AddSample | renderer/src/stats.rs:14-28 | the statistics stay the summary of every sample passed so far, the new one included |
| SwashImage.Zeros | renderer/src/glyph/glyph_rasterization.rs:142 | n zero bytes |
| SwashImage.FramedRowSlice | renderer/src/glyph/glyph_rasterization.rs:144-148 | a padded row is the source row's slice between two zeros |
| SwashImage.FramedLength | renderer/src/glyph/glyph_rasterization.rs:142-143 | n padded rows take n (w + 2) bytes |
| SwashImage.FramedAt | renderer/src/glyph/glyph_rasterization.rs:143-148 | byte col of padded row r sits at r (w + 2) + col |
| SwashImage.PaddedLength | renderer/src/glyph/glyph_rasterization.rs:142 | the padded image has (w + 2)(h + 2) bytes |
| SwashImage.PaddedPoint | renderer/src/glyph/glyph_rasterization.rs:141-151 | the padded image holds source pixel (col - 1, row - 1) inside its border and zero on the border |
| RenderGeometry.ResolveDerived | renderer/src/render_geometry.rs:179-187 | the first resolve stores the recomputed value at the head version; later ones keep a value stamped with the head version, recompute an older one, and panic only on a value stamped ahead of the head |
| RenderGeometry.CachedViewProjectionIsCurrent | renderer/src/render_geometry.rs:147-166 | with a valid cache the view projection never panics, equals the camera projection times the pixel matrix for the current camera and size, and leaves the cache valid, stamped with the head version |
| RenderGeometry.BumpKeepsCacheValid | renderer/src/render_geometry.rs:71-83 | bumping the head version keeps the cache valid for any camera and surface size |
| RenderGeometry.RenderGeometry.constructor | renderer/src/render_geometry.rs:26-33 | head version 1, an empty cache, the given size and camera |
| RenderGeometry.RenderGeometry.SetSurfaceSize | renderer/src/render_geometry.rs:71-76 | a different size bumps the head version by one, the same size changes nothing; the cache stays valid |
| RenderGeometry.RenderGeometry.SetCamera | renderer/src/render_geometry.rs:78-83 | a different camera bumps the head version by one, the same camera changes nothing; the cache stays valid |
| RenderGeometry.RenderGeometry.ViewProjection | renderer/src/render_geometry.rs:86-95 | the result is the view projection of the current camera and surface size, whatever was cached |
| Label.Size | text/src/label.rs:37-41 | the label is as wide as its metrics and as high as its ascent plus its descent |
| Label.PixelBoundsAt | text/src/label.rs:242-249 | the unit square of the pixel at the offset from the hitbox's top left corner |
| Label.PixelBoundsTile | text/src/label.rs:242-249 | neighbouring pixels' squares share their edges |
| Label.PlaceGlyph | text/src/label.rs:353-364 | the glyph image's rectangle starts at the hitbox plus the placement's left, and its top is the placement's top above the baseline; its size is the placement's |
| Label.PlacedGlyphInsideLabel | text/src/label.rs:37-41 | a first-line glyph within ascent and descent lies vertically inside the label (see also lines 353-364) |
| Label.PlaceGrownGlyph | text/src/label.rs:353-364 | a padded image's rectangle is the original grown by the padding on every side (see also lines 502-520) |
| Label.GlyphToTextureVertex | text/src/label.rs:366-386 | four vertices at z = 0 in the order left top, left bottom, right bottom, right top, each carrying its corner's texture coordinate |
| Label.RenderSdf | text/src/label.rs:467-499 | panics only where padding does; otherwise always a distance field placed pad pixels further out on every side, computed from the padded image's alpha values and its edge map, which (with the corrected first-column mask) marks exactly the edge pixels of the padded image |
| Label.ImageToTextureWithClassification | text/src/label.rs:276-306 | undistorted glyphs get the one-pixel padded placement and the flat pipeline, distorted ones the distance-field placement and the SDF pipeline; the error never happens |
| GlyphAtlas.BytesPerPixel | renderer/src/glyph/glyph_atlas.rs:138-142 | one byte for a mask, four for colour, a panic exactly for a subpixel mask |
| GlyphAtlas.GrownDim | renderer/src/glyph/glyph_atlas.rs:103-109 | never above the device limit; strictly larger for a side between zero and the limit, and unchanged only at zero or the limit |
| GlyphAtlas.UploadsInsert | renderer/src/glyph/glyph_atlas.rs:85-87 | storing one more image adds exactly its upload to the texture |
| GlyphAtlas.ImageRect | renderer/src/glyph/glyph_atlas.rs:57-89 | starts at the allocation's top left corner and has exactly the image's size |
| GlyphAtlas.GlyphAtlas.constructor | renderer/src/glyph/glyph_atlas.rs:30-45 | accepts only the two 8-bit formats; an empty atlas of side min(128, device limit) |
| GlyphAtlas.GlyphAtlas.Size | renderer/src/glyph/glyph_atlas.rs:48-51 | a square of the current side |
| GlyphAtlas.GlyphAtlas.Get | renderer/src/glyph/glyph_atlas.rs:57-65 | none exactly for keys not stored; otherwise the stored image and its rectangle from the allocation's corner with the image's size |
| GlyphAtlas.GlyphAtlas.Grow | renderer/src/glyph/glyph_atlas.rs:98-123 | an error exactly when the side cannot grow, leaving everything as it was; otherwise the grown side, the allocator grown to it and every stored image uploaded again; the stored images never change |
| GlyphAtlas.GlyphAtlas.UploadAll | renderer/src/glyph/glyph_atlas.rs:126-131 | the texture receives every stored image at its allocation's corner |
| GlyphAtlas.GlyphAtlas.Store | renderer/src/glyph/glyph_atlas.rs:68-95 | on success the key is added with the image, nothing else stored changes, and the returned rectangle is what get reports for it; an error leaves the stored images as they were; a panic only for a subpixel mask; the texture always holds exactly the stored images |
| GlyphRasterization.CopyLine | renderer/src/glyph/glyph_rasterization.rs:144-148 | copies one row into the padded buffer, or panics exactly when the image ends before that row does |
| GlyphRasterization.CopyLines | renderer/src/glyph/glyph_rasterization.rs:143-149 | after all rows the buffer is the padded image; a panic exactly when the image has fewer than w h bytes |
| GlyphRasterization.PadImageData | renderer/src/glyph/glyph_rasterization.rs:141-151 | the padded image (each source pixel one row and one column further in, zeros on the border), or a panic exactly when the image has fewer than w h bytes (see also text/src/label.rs:522-532) |
| GlyphRasterization.Grown | renderer/src/glyph/glyph_rasterization.rs:105-133 | left moves out by the padding, top up by it, and both sides grow by twice the padding |
| GlyphRasterization.GrownKeepsPixelsInPlace | renderer/src/glyph/glyph_rasterization.rs:128-133 | a pixel of the padded image lies at the same offset from the pen position as the original pixel |
| GlyphRasterization.PadImage | renderer/src/glyph/glyph_rasterization.rs:121-138 | the padded data under the one-pixel grown placement with the same content; panics where the data padding does (see also text/src/label.rs:502-520) |
| GlyphRasterization.RenderSdf | renderer/src/glyph/glyph_rasterization.rs:82-117 | some image exactly when the generator succeeds on the padded input, holding its output under the placement grown by the distance field padding |
| GlyphRasterization.RasterizePaddedGlyph | renderer/src/glyph/glyph_rasterization.rs:17-31 | nothing when rasterization fails; the distance field when the key asks for one; otherwise the one-pixel padded image |
| QuadIndexBuffer.QuadIndicesOf | renderer/src/tools/quad_index_buffer.rs:47-58 | six indices, each within u16 |
| QuadIndexBuffer.QuadIndexArrayLength | renderer/src/tools/quad_index_buffer.rs:44-56 | the array for n quads has 6 n indices |
| QuadIndexBuffer.QuadIndexArrayBlock | renderer/src/tools/quad_index_buffer.rs:44-56 | quad q's indices sit at 6 q to 6 q + 5 |
| QuadIndexBuffer.QuadIndexArrayAt | renderer/src/tools/quad_index_buffer.rs:47-53 | index j of quad q is QUAD_INDICES[j] plus 4 q wrapped to 16 bits |
| QuadIndexBuffer.IndicesAddressOwnQuad | renderer/src/tools/quad_index_buffer.rs:47-58 | below 2^14 quads each quad draws its own four vertices as two triangles sharing a diagonal |
| QuadIndexBuffer.QuadIndicesUnwrapped | renderer/src/tools/quad_index_buffer.rs:51 | below 2^14 the shifted indices do not wrap |
| QuadIndexBuffer.IndicesWrapAtQuadSixteenThousand | renderer/src/tools/quad_index_buffer.rs:51 | quad 2^14 draws vertices 0 to 3 again |
| QuadIndexBuffer.QuadIndexArrayPrefix | renderer/src/tools/quad_index_buffer.rs:44-56 | the array for fewer quads is a prefix of the array for more |
| QuadIndexBuffer.QuadIndexArrayBounded | renderer/src/tools/quad_index_buffer.rs:44-56 | up to 2^14 quads the array only addresses their 4 n vertices |
| QuadIndexBuffer.DrawnIndicesInRange | renderer/src/tools/quad_index_buffer.rs:19-42 | drawing fewer quads than the capacity reads only indices of the drawn quads' vertices |
| QuadIndexBuffer.GrownCapacityIsSmallest | renderer/src/tools/quad_index_buffer.rs:29-36 | the grown capacity is the least max(current, 1) 2^m with m at least 1 that reaches the required count |
| QuadIndexBuffer.GenerateArray | renderer/src/tools/quad_index_buffer.rs:44-56 | the indices of all quads, one shifted QUAD_INDICES block after another |
| QuadIndexBuffer.QuadIndexBuffer.constructor | renderer/src/tools/quad_index_buffer.rs:9-13 | an empty buffer that indexes no quad |
| QuadIndexBuffer.QuadIndexBuffer.Quads | renderer/src/tools/quad_index_buffer.rs:15-17 | the buffer's size divided by the size of one quad's indices, rounded down |
| QuadIndexBuffer.QuadIndexBuffer.EnsureCanIndexNumQuads | renderer/src/tools/quad_index_buffer.rs:19-42 | nothing changes when the buffer is large enough; otherwise it holds the indices of the grown capacity; afterwards it always indexes at least the required quads |

## Left out

- Windowing, the event loop, threads, channels and async tasks: the shell's windows and render thread, the coalescing receiver, the desktop's instance manager and the applications' channels are I/O and concurrency plumbing.
- The GPU device, queues, pipelines, shaders, bind groups, and buffer and texture creation: a batch, an atlas texture or an index buffer is represented by the data uploaded to it.
- Floating-point numerics: geometry arithmetic, matrices and cameras, easing curves, Hermite blending, the glyph classifier, and the Euclidean distance transform passes and distance packing of the SDF generator. Matrices, transforms and cameras are abstract types, and their products and builders are function parameters; the blend `t` values are reals.
- Font shaping and glyph rasterization (cosmic-text and swash): the rasterizer is an abstract function of the glyph key, and the etagere allocator is an abstract allocate function whose results the atlases check.
- TOML and serde parsing: the TOML reader receives already parsed sections.
- `HashMap` and `HashSet` iteration order: wherever the source's output depends on it, the order is an input sequence (TOML sections, uploading all images, device states, views). The one exception is the TOML reader's found values: the unlisted values of the `...` group are taken in the order they first appear among the profiles (`FoundOrder`), one fixed choice among the orders the source's map may yield.
- Clocks: `Instant::now()` is an integer parameter `now` or `clock`; instants are integer ticks and durations natural numbers.
- Integer widths: `u16`, `u32`, `i32`, `u64` and `usize` are unbounded, except the quad index buffer's `u16` indices, whose wrap-around at 2^14 quads is modelled. Version counters, id counters, depth biases and frame statistics sums do not wrap here. The `count as u32` of the statistics' mean is modelled as the count modulo 2^32.
- The overflow guard of `ensure_can_index_num_quads` (the assertion that the doubled capacity is not zero) is not reachable with unbounded integers and is not modelled.
- `RenderPacing::default()` is not part of this model: the view registry's `add_view` receives the default pacing as a parameter.
- The keyboard modifiers' default value is a parameter of the event aggregator.
- Deref of the scene's and the renderer's `Versioned`, `Computed` and `Timeline` values is a plain field read, with no property of its own beyond that.
- `ChangeTracker` is the ordered log of recorded changes; its consumers are not part of this model.
- The per-type `Generator` of scene/src/id.rs is not part of this model: the type id generators take its acquire and release operations as a parameter.
- TransformResolver.TransformResolver.Resolve: requires the locations' parent links to be ranked, that is free of cycles. Nothing in the scene rejects a location whose parent chain returns to it, and on such a chain the source recurses without end. The ordered hierarchy has the same gap: `OrderedHierarchy.AddPermitsCycles` shows that it accepts a cycle.
- LocationMatrices.LocationMatrices.ComputeMatrices: requires ranked parent links for the same reason, so the model leaves out the endless recursion of `resolve` on a parent cycle.
- Debug assertions: the model follows release builds, where `debug_assert!` is off. `pad_image` does not check that the image is a mask (renderer/src/glyph/glyph_rasterization.rs:122, text/src/label.rs:503), and `remove_nested` does not check a nested node's parent (desktop/src/aggregates/ordered_hierarchy.rs:128-134). The glyph atlas's check that a stored key is new is a precondition of `GlyphAtlas.GlyphAtlas.Store`, which its caller meets.
- Indexing an `IdTable` for a location that was never computed yields the default computed matrix in `LocationMatrices.LocationMatrices.Get`; the panicking variant `get_unwrapped` is a returned flag.
- The one-shot layouter's nested layouters borrow their parent's `Inner` mutably; the model hands the trace back explicitly and tracks the borrow with ghost state (`base`, `kids`) rather than with Rust's borrow checker. The `place_inline` callback is the sequence of `(id, rect)` pairs the placing emits, in order.
- The incremental layouter's recursive passes are bounded by a `fuel` count of one more than the cached nodes and rects. Running out is reported through the returned panic flag: that is where the source would recurse without end on a cyclic topology. After a panic the model does not specify the remaining state.
- The ordered hierarchy's unit tests (desktop/src/aggregates/ordered_hierarchy.rs:238-302) are replayed by `OrderedHierarchy.RemoveWithNestedExample`, `RemoveKeepsOrderExample` and `QueryExamples`. The incremental layouter's unit tests that check concrete rects (for example layout/src/incremental_layouter.rs:780-824 and 875-910) are not replayed: their rects come from the test module's own layout algorithm (incremental_layouter.rs:533-585), which is not part of this model.
- RendererStats.Mean: `Duration / u32` is modelled as the standard library divides it today (`DivDuration`): seconds and nanoseconds are divided separately and the two remainders are divided together, which rounds down exactly. No toolchain is pinned. A standard library that drops the nanoseconds' remainder can return 1 ns less, for example 1_000_000_002 ns over 3 samples, and the model does not describe that.
- IncrementalLayouters.IncrementalLayouter.Recompute: where nodes end up is stated only for the root, and only when the root moved, is the topology's single parentless node and caches a tree. It is not stated that moving the root with nothing else pending shifts every cached rect by the root's delta (layout/src/incremental_layouter.rs:875-910): that needs an algorithm whose placements move with the parent, which the abstract algorithm does not promise. Nor are the reported ids characterised as the affected nodes plus the shifted clean subtrees (incremental_layouter.rs:780-824).
- IncrementalLayouters.IncrementalLayouter.PlaceSubtree: the placement is stated one level deep, for the node and its direct children; deeper levels follow from the same contract on each walked child but are not collected into one statement. All placement promises assume a tree-shaped cache (`TreeBelow`); on a cache where a subtree meets itself a later write can overwrite an earlier one, and only the frame and the reports are stated.
- The focus tree's builder `with` is `Push` on the moved path value.
- The band presenter's `layout`, `set_instance_rect`, navigation, `process`, `apply_animations` and `instance_transform` are scene and animation plumbing and not part of this model; the presenter's animated center is its current value.
- The view registry's `views()` iterator exposes `HashMap` order and is not modelled.
- The shell scene's renderer is a log of the calls it receives.
- The text layer renderer's rasterizer (`rasterize_glyph_with_padding`) is an abstract function; the distance field generator's output is a parameter of distance-field rendering.
- DistanceFieldGen.MarkPixel: follows the corrected first-column mask (TOP_LEFT cleared instead of TOP). As written, pixel (0, 1) tests the byte before the image and never the pixel above it, and the model does not say what that read returns (see Findings).
- DistanceFieldGen.MarkRow: built on the corrected mask of `MarkPixel`, so row 1 may differ from the code as written at column 0.
- DistanceFieldGen.MarkEdges: the edge map of the corrected mask; the code as written can differ at pixel (0, 1).
- DistanceFieldGen.GenerateDistanceField: returns the corrected mask's edge map; as written its first-column probe reads before the buffer.
- Label.RenderSdf: its edge map is the corrected mask's, as for `GenerateDistanceField`.
- The log viewer's `rgb_to_color` is the identity, and terminal actions other than those the attributor reacts to are one `OtherAction` case.
- The example application's `matrix` and the rounding of wheel deltas are floating-point code; positions and deltas arrive as integers.

## Findings

| source | as written | input that shows it | evidently intended | confidence | as-written member | corrected member |
|---|---|---|---|---|---|---|
| text/src/distance_field_gen.rs:110-113 | in the first column the neighbour mask clears `TOP` instead of `TOP_LEFT` | the all-zero 3 × 3 padded image of a 1 × 1 glyph, pixel at column 0, row 1: it tests the byte before the image (index −1) as its top-left neighbour and never tests the pixel above it | clear `TOP_LEFT` (with `LEFT` and `BOTTOM_LEFT`) in the first column | not executed | DistanceFieldGen.CheckMaskAsWrittenReadsBefore | DistanceFieldGen.CheckMaskKeepsInside, DistanceFieldGen.FoundEdgeIsEdgePixel |
| examples/logs/src/terminal/text_attributor.rs:88-91 | `Print(ch)` pushes one attribute while the text grows by `ch.len_utf8()` bytes | printing `'é'` (two bytes) into an empty attributor: the text is 2 bytes long, there is one attribute, and the coverage check of `shape_text` panics on the ranges | push one attribute per byte, as `PrintString` does | not executed | TextAttributor.MultibytePrintBreaksCoverage | TextAttributor.MultibytePrintCovered, TextAttributor.StepKeepsValid |
| desktop/src/band_presenter.rs:105-107 | `present_instance` replaces the instance's presenter before it reports the instance as already present | presenting an instance that is disappearing: its presenter is reset to appearing and the `ordered` list no longer lists every presenter that takes up space | check for a present instance before creating its presenter | not executed | BandPresenter.RepresentingDisappearingBreaksBand, BandPresenter.PresentInstanceAsWrittenDiffers | BandPresenter.PresentInstanceProperties |
