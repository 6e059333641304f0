# Hand-gesture kiosk input layer, modelled in Dafny

This project models the input layer of a Unity kiosk application. A
webcam-based tracker sends a hand pointer in [0,1]², a pinch flag and a
validity flag every frame. With these the visitor:

- selects menu buttons by holding an open palm over them (`HandDwellSelectable`, `HandPalmDwellClick`);
- presses keys with a pinch (`HandPinchSelectable`);
- drags scroll views with a pinch (`HandScrollController`, `HandScrollControllerGeneric`);
- sees a stabilised hand cursor (`HandCursorSprite`).

On top of the input layer sit:

- an on-screen keyboard (`VirtualKeyboardController`);
- a faculty and career browser with a search (`CareerUiFlow`);
- a screenshot uploader with a QR panel (`ScreenshotCaptureUploader`, `QRDisplayController`);
- two list builders (`HandLandmarkOverlay`, `SemesterPanel`).

There is one module per C# component, plus `Common` for the Unity helpers
(`Mathf.Clamp`, `Rect.Contains`, the pointer-to-screen mapping) and `Text`
for the .NET string routines (`Trim`, `IndexOf`, `IsNullOrWhiteSpace`).

Each component whose fields change frame by frame is modelled in the same way:

- a datatype holds a snapshot of its runtime fields;
- a pure `Step` function gives one frame (or one call) and is the specification;
- `Run` folds `Step` over a sequence of frames;
- a class with the source's fields has methods whose `ensures` tie the new
  state to `Step` of the old one (`State() == Step(old(State()), t)`).

The properties are lemmas about `Step` and `Run`. Loops of the source, such as
`FindHoveredButton`, the faculty filter, `EnsurePanelOpen`/`Close`,
`EnsurePoolSize`, `AddRow`/`ClearRows` and `Populate`, are methods with loop
invariants proved against the same functions.

Modelling choices:

- Unity `float`s are `real`s.
- A C# `null` is `Option.None`.
- What the engine or the tracker computes is an input of the frame:
  - time and delta time;
  - data validity and presence-with-grace;
  - the SmoothDamp-smoothed pointer;
  - the One-Euro filter's new estimate;
  - the alpha SmoothDamp results;
  - target and viewport rectangles, already in screen space.

## Model

| member | source | states |
|---|---|---|
| Common.Clamp | Assets/Scripts/HandCursorSprite.cs:145-150 | `Mathf.Clamp` tests the lower bound first. The result lies in [lo, hi] when lo ≤ hi and is x itself inside the range. |
| Common.Clamp01 | Assets/Scripts/HandScrollController.cs:23 | The result lies in [0,1], is x inside [0,1], is 1 at or above 1 and 0 at or below 0. |
| Common.Fill | Assets/Scripts/HandDwellSelectable.cs:199 | The progress fill `Clamp01(hold / dwellSeconds)` lies in [0,1] (including `dwellSeconds == 0`). It is 1 once the hold reaches `dwellSeconds` and 0 for no hold. |
| Common.ScreenPoint | Assets/Scripts/HandDwellSelectable.cs:141-144 | The pointer is mirrored if asked, clamped to [0,1], then scaled. The screen point lies within [0,width]×[0,height]. |
| Common.MirrorReflectsScreenX | Assets/Scripts/HandDwellSelectable.cs:142-144 | Mirroring reflects the screen x about the middle of the screen (x' = width − x) and leaves y unchanged, for any input. |
| Text.TrimIsTightInfix | Assets/Scripts/CareerUiFlow.cs:91 | `Trim()` returns a contiguous part of the string. It has no white space at either end, and only white space was cut. |
| Text.TrimEmptyIffWhiteSpace | Assets/Scripts/CareerUiFlow.cs:91-92 | A string trims to "" if and only if it is all white space. |
| Text.IndexOfIgnoreCase | Assets/Scripts/CareerUiFlow.cs:102 | `IndexOf(…, OrdinalIgnoreCase)` returns the first case-insensitive match at or after `start`, or −1 when there is none. |
| Text.IndexOfChar | Assets/Scripts/ScreenshotCaptureUploader.cs:217-218 | `IndexOf(c, start)` returns the first position at or after `start` holding `c`, or −1 when no such position exists. |
| HandDwell.Awake | Assets/Scripts/HandDwellSelectable.cs:107-108 | After `Awake`: no hold, not hovering, no outside observation, no palm timer, and the spawn block ends no earlier than `now + spawnBlockSeconds`. |
| HandDwell.ContainsPaddedMonotone | Assets/Scripts/HandDwellSelectable.cs:253-268 | For the padded hit test (unpadded when pad ≤ 0, grown rectangle otherwise), a point inside with a smaller pad is inside with a larger one. |
| HandDwell.BlockedFrameOnlyDecays | Assets/Scripts/HandDwellSelectable.cs:113-118 | During the spawn block or cooldown, or with invalid data, nothing is selected. The hold only decays and stays ≥ 0, hovering ends, the ring is hidden and the cooldown times are unchanged. |
| HandDwell.DecayStaysInRange | Assets/Scripts/HandDwellSelectable.cs:218-227 | Decay lowers the hold by `dwellSeconds / max(0.001, resetSeconds) · dt` and never below 0. |
| HandDwell.PinchFrameNeverSelects | Assets/Scripts/HandDwellSelectable.cs:121-131 | With `onlyPalm`, a pinching frame never selects and stamps `lastPinchTime`. It zeroes the hold and the palm timer exactly when `resetProgressOnPinch` is set, and hides the ring. |
| HandDwell.DebounceFrameKeepsProgress | Assets/Scripts/HandDwellSelectable.cs:132-137 | Within `pinchDebounceSec` of the last pinch, nothing is selected and no field changes except the (hidden) ring. |
| HandDwell.OutsideViewportIsOutside | Assets/Scripts/HandDwellSelectable.cs:152-160 | A pointer outside the viewport is never inside and never ready, whatever the padding. |
| HandDwell.InsideUsesHysteresis | Assets/Scripts/HandDwellSelectable.cs:157-160 | Inside the viewport, "inside" is the padded test with the exit padding while hovering and the enter padding otherwise. With exit ≥ enter, whatever may enter may stay. |
| HandDwell.ProgressNeedsPalmDelay | Assets/Scripts/HandDwellSelectable.cs:177-198 | A frame that selects or grows the hold has passed every gate: not blocked, valid, not pinching, not debouncing, inside, present, outside-since-cooldown if required, and the palm held for `palmDelaySeconds`. |
| HandDwell.InterruptionResetsPalmTimer | Assets/Scripts/HandDwellSelectable.cs:179-193 | A frame that reaches the pointer stages without inside ∧ presence ∧ (outside-since-cooldown if required) resets the palm timer to −1. |
| HandDwell.ReadyFrameAccruesAndSelectsAtFull | Assets/Scripts/HandDwellSelectable.cs:195-207 | A ready frame adds `dt` to the hold and selects exactly when the fill reaches 1. A selection is followed by `StartCooldown(cooldownAfterSelect)` with all its resets. |
| HandDwell.StartCooldownResets | Assets/Scripts/HandDwellSelectable.cs:239-251 | `StartCooldown(s)` sets `cooldownUntil = now + max(0,s)` and `spawnBlockUntil = max(old, cooldownUntil)`. It zeroes the hold, clears hovering and the outside flag, and resets the palm timer. |
| HandDwell.GraceKeepsHold | Assets/Scripts/HandDwellSelectable.cs:209-215 | While waiting for the palm delay, a pointer that was inside within `graceSeconds` keeps the hold and selects nothing. |
| HandDwell.NoSelectionBeforeCooldownEnds | Assets/Scripts/HandDwellSelectable.cs:113-115 | Over any frames before `cooldownUntil`, nothing is selected and the cooldown stays as it is. |
| HandDwell.StepKeepsHoldNonNegative | Assets/Scripts/HandDwellSelectable.cs:198 | One frame keeps the hold non-negative when `dt` ≥ 0. |
| HandDwell.RunKeepsHoldNonNegative | Assets/Scripts/HandDwellSelectable.cs:111-227 | Any sequence of frames keeps the hold non-negative. |
| HandDwell.NoSecondSelectionDuringCooldown | Assets/Scripts/HandDwellSelectable.cs:202-207 | After a selection at `now`, no frame before `now + max(0, cooldownAfterSelect)` selects again. |
| HandDwell.HandDwellSelectable.constructor | Assets/Scripts/HandDwellSelectable.cs:83-109 | The fields after `Awake` are `Awake(cfg, now)`. |
| HandDwell.HandDwellSelectable.DrawRing | Assets/Scripts/HandDwellSelectable.cs:229-236 | The ring shows the amount; it is visible only when allowed (and hovering or non-zero when `showRingOnlyOnHover`). |
| HandDwell.HandDwellSelectable.DecayAndDraw | Assets/Scripts/HandDwellSelectable.cs:218-227 | The fields become `AfterDecay`: the hold decays, hovering ends and the ring shows the fill, hidden. |
| HandDwell.HandDwellSelectable.StartCooldown | Assets/Scripts/HandDwellSelectable.cs:239-251 | The fields become `AfterCooldown(now, seconds)`. |
| HandDwell.HandDwellSelectable.Update | Assets/Scripts/HandDwellSelectable.cs:111-216 | The fields and the selection flag are `Step` of the old fields and the frame. |
| HandDwell.HandDwellSelectable.TrackPointer | Assets/Scripts/HandDwellSelectable.cs:140-215 | The pointer stages (hysteresis, presence, palm delay, accrual or decay) update the fields as `Track` does. |
| HandPinch.RawScreen | Assets/Scripts/HandPinchSelectable.cs:54-57 | The mirrored, clamped and scaled pointer lies within [0,width]×[0,height]. It is the target of the SmoothDamp whose result is the frame's `smoothed` input. |
| HandPinch.ContainsPaddedMonotone | Assets/Scripts/HandPinchSelectable.cs:102-110 | Containment in the rectangle grown by `pad` is monotone in `pad`. |
| HandPinch.IdleFrameChangesNothing | Assets/Scripts/HandPinchSelectable.cs:50-51 | With invalid data or during the cooldown, no event fires and nothing changes. |
| HandPinch.OutsideViewportClears | Assets/Scripts/HandPinchSelectable.cs:61-62 | A pointer outside the viewport clears hovering and the pinch memory, and fires nothing. |
| HandPinch.InsideUsesHysteresis | Assets/Scripts/HandPinchSelectable.cs:64-67 | "Inside" uses the exit padding while hovering and the enter padding otherwise. With exit ≥ enter, whatever may enter may stay. |
| HandPinch.FiresExactlyOnRisingEdge | Assets/Scripts/HandPinchSelectable.cs:69-79 | `onPinch` fires if and only if the data is valid, there is no cooldown, the pointer is in the viewport and inside, and the pinch is rising (pinching ∧ ¬prevPinch). |
| HandPinch.FiringStartsCooldown | Assets/Scripts/HandPinchSelectable.cs:78-84 | A firing frame sets `coolUntil = now + max(0, cooldownAfterPinch)` and drops hovering. The pinch memory ends set, because line 84 runs after `StartCooldown`. |
| HandPinch.NonFiringFrameTracksPinch | Assets/Scripts/HandPinchSelectable.cs:80-91 | A non-firing inside frame hovers and remembers the pinch flag. An outside frame clears both. The cooldown is unchanged. |
| HandPinch.HeldPinchStaysQuiet | Assets/Scripts/HandPinchSelectable.cs:74-84 | Once a held pinch is remembered, it never fires while it stays over the button. |
| HandPinch.HeldPinchFiresAtMostOnce | Assets/Scripts/HandPinchSelectable.cs:69-91 | Holding one pinch over the button fires `onPinch` at most once over any number of frames. |
| HandPinch.HandPinchSelectable.StartCooldown | Assets/Scripts/HandPinchSelectable.cs:94-100 | The fields become `AfterCooldown(now, sec)`. |
| HandPinch.HandPinchSelectable.Update | Assets/Scripts/HandPinchSelectable.cs:48-92 | The fields and the fired flag are `Step` of the old fields and the frame. |
| PalmDwellClick.FirstHit | Assets/Scripts/HandPalmDwellClick.cs:88-101 | The result is null if and only if no button is accepted. Otherwise it is an accepted button (alive, active, interactable, containing the point) with no accepted button before it. |
| PalmDwellClick.FindHoveredButton | Assets/Scripts/HandPalmDwellClick.cs:88-101 | The scan with early return yields `FirstHit`: an accepted button of the list, or null when there is none. |
| PalmDwellClick.InvalidFrameChangesNothing | Assets/Scripts/HandPalmDwellClick.cs:39 | Invalid data leaves hovered, dwell, last screen point and ring unchanged, and clicks nothing. |
| PalmDwellClick.ValidFrameTracksPointer | Assets/Scripts/HandPalmDwellClick.cs:42-60 | A valid frame records the screen point and hovers the first accepted button, or none when nothing is hit. |
| PalmDwellClick.DwellAccounting | Assets/Scripts/HandPalmDwellClick.cs:57-85 | The dwell restarts at 0 when the hovered button changes and grows by `dt` only when hovered ∧ palm ∧ stable. It clicks exactly when it reaches `dwellSeconds`, then resets; any other frame zeroes it. |
| PalmDwellClick.ClickGoesToHovered | Assets/Scripts/HandPalmDwellClick.cs:74-76 | A click goes to the button hovered in that frame, which is an accepted button containing the point. |
| PalmDwellClick.RingFillInRange | Assets/Scripts/HandPalmDwellClick.cs:62-84 | The ring fill lies in [0,1] and is 0 whenever the dwell is 0. |
| PalmDwellClick.NoTimeIsStable | Assets/Scripts/HandPalmDwellClick.cs:53-67 | With `dt` ≤ 0 the speed is 0, so the movement guard passes. |
| PalmDwellClick.StillIsStable | Assets/Scripts/HandPalmDwellClick.cs:53-67 | A pointer that did not move always passes the movement guard. |
| PalmDwellClick.DwellGrowsAtMostDt | Assets/Scripts/HandPalmDwellClick.cs:58-85 | One frame raises the dwell by at most `dt` and keeps it ≥ 0. |
| PalmDwellClick.NoClickBeforeDwellSeconds | Assets/Scripts/HandPalmDwellClick.cs:71-79 | No click happens before `dwellSeconds` of frame time has accumulated on top of the current dwell. |
| PalmDwellClick.HandPalmDwellClick.SetRingFill | Assets/Scripts/HandPalmDwellClick.cs:62 | Only the ring fill changes (when a ring is assigned). |
| PalmDwellClick.HandPalmDwellClick.Update | Assets/Scripts/HandPalmDwellClick.cs:37-86 | The fields and the clicked button are `Step` of the old fields and the frame. |
| CursorSprite.AlphaCoef | Assets/Scripts/HandCursorSprite.cs:85-89 | The One-Euro coefficient lies strictly in (0,1) for every cutoff and `dt`. |
| CursorSprite.SampleAge | Assets/Scripts/HandCursorSprite.cs:145 | The sample age is clamped to [0, 0.05]. |
| CursorSprite.PredictAxis | Assets/Scripts/HandCursorSprite.cs:147-151 | Each predicted coordinate lies in [0,1] and moves at most `maxPredictStep01` from an in-range `xHat`. |
| CursorSprite.Predict | Assets/Scripts/HandCursorSprite.cs:145-151 | The predicted cursor position lies in [0,1]². |
| CursorSprite.SecondCallInFrameIsIgnored | Assets/Scripts/HandCursorSprite.cs:93-94 | A second call of `MoveNow` in the same frame changes nothing and draws nothing. |
| CursorSprite.StaleWithinGraceActsFresh | Assets/Scripts/HandCursorSprite.cs:98-102 | Stale data from an assigned receiver within `validGraceSec` of the last fresh sample gives the same state and the same drawing as fresh data, except for the freshness stamp. |
| CursorSprite.UnassignedReceiverThrows | Assets/Scripts/HandCursorSprite.cs:93-111 | With `body` unassigned and within `validGraceSec`, the read of `body.pointerPosition` throws after the frame stamp: only `lastMoveFrame` changes and nothing is drawn. |
| CursorSprite.StalePastGraceFreezes | Assets/Scripts/HandCursorSprite.cs:98-109 | Data that is not fresh (receiver unassigned or reporting invalid data) past the grace leaves the filter and the presence memory alone. It fades out exactly when unseen for longer than `hideGraceSec` and shown for at least `minVisibleSec`; otherwise it draws at `xHat`. |
| CursorSprite.DeadzoneKeepsFilter | Assets/Scripts/HandCursorSprite.cs:114-116 | Once the filter has a sample, a move within `movementThreshold` keeps `xHat` and `dxHat`, counts as seen and draws at `xHat`. |
| CursorSprite.PresenceDecides | Assets/Scripts/HandCursorSprite.cs:118-134 | A present sample is stamped seen and drawn at the prediction. An absent one leaves the filter and the presence memory alone. |
| CursorSprite.PresenceThresholds | Assets/Scripts/HandCursorSprite.cs:118-121 | A counted pinch is always present. With the hide deadzone ≥ the show deadzone, a hand that counts as present against the hide deadzone also counts as present against the show deadzone. |
| CursorSprite.PresenceIsSticky | Assets/Scripts/HandCursorSprite.cs:116-132 | `wasPresent` is never cleared. |
| CursorSprite.FirstSampleSnaps | Assets/Scripts/HandCursorSprite.cs:136 | The first present sample sets `xHat` to the pointer and `dxHat` to zero. |
| CursorSprite.DrawnPositionIsClamped | Assets/Scripts/HandCursorSprite.cs:145-154 | Whatever is drawn lies in [0,1]², and a prediction moves at most `maxPredictStep01` per axis from `xHat`. The bound on the new `xHat` assumes the One-Euro estimate (a frame input) is in [0,1], as a lerp of in-range points by a factor in (0,1) is. |
| CursorSprite.FadeInStampsVisibleTime | Assets/Scripts/HandCursorSprite.cs:159-164 | Fading in stamps `lastVisibleOnTime` exactly when the alpha was below 0.99. Fading out never stamps it. |
| CursorSprite.HandCursorSprite.Fade | Assets/Scripts/HandCursorSprite.cs:159-168 | The fields become `FadeTo` of the old fields. |
| CursorSprite.HandCursorSprite.Hold | Assets/Scripts/HandCursorSprite.cs:104-107 | The linger branch: fade out when allowed, otherwise fade in and draw at `xHat`. |
| CursorSprite.HandCursorSprite.MoveNow | Assets/Scripts/HandCursorSprite.cs:91-157 | The fields and the drawn position are `Step` of the old fields and the frame, including the exception an unassigned `body` raises within the valid grace (the call stops after the frame stamp). |
| CursorSprite.HandCursorSprite.TrackSample | Assets/Scripts/HandCursorSprite.cs:111-156 | The usable-data branch updates the fields and the drawn position as `Track` does. |
| HandScroll.InvalidFrameChangesNothing | Assets/Scripts/HandScrollController.cs:17 | Invalid data changes nothing, including `hasLast` and `lastX`. |
| HandScroll.ReleaseDropsAnchor | Assets/Scripts/HandScrollController.cs:18-22 | Not pinching while a pinch is required drops the anchor and leaves the position and `lastX` unchanged. |
| HandScroll.FollowAccounting | Assets/Scripts/HandScrollController.cs:23-34 | Every processed sample anchors at the clamped x. The first sample and one within the deadzone leave the position. Any other moves it to `Clamp01(position + dx · scrollSpeed)`, with dx negated when inverted. |
| HandScroll.FollowKeepsUnitRange | Assets/Scripts/HandScrollController.cs:32 | A position in [0,1] stays in [0,1]. |
| HandScroll.DragDirection | Assets/Scripts/HandScrollController.cs:25-33 | With a non-negative speed, dragging towards larger x never lowers the position, or never raises it when inverted. |
| HandScroll.RunKeepsUnitRange | Assets/Scripts/HandScrollController.cs:15-35 | Over any frames the scroll position stays in [0,1]. |
| HandScroll.HandScrollController.Update | Assets/Scripts/HandScrollController.cs:15-35 | Without a scroll view nothing changes. Otherwise the anchor and the view's horizontal position follow `Step`. |
| HandScrollGeneric.Enable | Assets/Scripts/HandScrollControllerGeneric.cs:21 | `OnEnable` drops the anchor and changes nothing else. |
| HandScrollGeneric.InvalidFrameChangesNothing | Assets/Scripts/HandScrollControllerGeneric.cs:25 | Invalid data changes nothing. |
| HandScrollGeneric.ReleaseDropsAnchor | Assets/Scripts/HandScrollControllerGeneric.cs:26 | Releasing a required pinch drops the anchor and moves nothing. |
| HandScrollGeneric.OnlySelectedAxisMoves | Assets/Scripts/HandScrollControllerGeneric.cs:28-46 | Only the selected axis moves. It is driven by the same pointer axis, by the same rule as the horizontal controller, and the other axis keeps its value. |
| HandScrollGeneric.DeadzoneMovesOnlyAnchor | Assets/Scripts/HandScrollControllerGeneric.cs:35 | A movement under the deadzone updates only `last`. |
| HandScrollGeneric.StepKeepsUnitRange | Assets/Scripts/HandScrollControllerGeneric.cs:39-45 | Both positions stay in [0,1]. |
| HandScrollGeneric.HandScrollControllerGeneric.OnEnable | Assets/Scripts/HandScrollControllerGeneric.cs:21 | `hasLast` becomes false and `last` is kept. |
| HandScrollGeneric.HandScrollControllerGeneric.Update | Assets/Scripts/HandScrollControllerGeneric.cs:23-49 | Without a scroll view nothing changes. Otherwise the anchor and the selected axis follow `Step`. |
| HandScrollGeneric.HandScrollControllerGeneric.Drag | Assets/Scripts/HandScrollControllerGeneric.cs:29-48 | The drag stages anchor, apply the deadzone and give the new position exactly as `HandScroll.Follow` does. |
| Keyboard.RowKeys | Assets/Scripts/VirtualKeyboardController.cs:125-129 | `AddRow` yields one narrow Char key per letter, in order, labelled with that letter. |
| Keyboard.CharLabelsOfRow | Assets/Scripts/VirtualKeyboardController.cs:125-129 | The labels of a row's keys spell back the row's letters. |
| Keyboard.LayoutKeys | Assets/Scripts/VirtualKeyboardController.cs:111-122 | The layout has 29 keys: the 26 letters, then wide "delete" (Backspace), Space and "return" (Enter), and no Clear key. |
| Keyboard.LayoutLetters | Assets/Scripts/VirtualKeyboardController.cs:112-116 | The letter keys spell QWERTYUIOP, ASDFGHJKL, ZXCVBNM in order. |
| Keyboard.ShowSeedsAndRebuilds | Assets/Scripts/VirtualKeyboardController.cs:47-70 | `Show` seeds the buffer with `seedText`, or "" for null. It activates the keyboard, stores the callback, destroys the old keys and builds the layout afresh (none without rows or prefab). |
| Keyboard.TypingAppends | Assets/Scripts/VirtualKeyboardController.cs:195-206 | A Char key appends its label, Space appends " " and Clear empties the buffer. |
| Keyboard.BackspaceDropsLast | Assets/Scripts/VirtualKeyboardController.cs:201-203 | Backspace drops exactly the last character and leaves an empty buffer empty. |
| Keyboard.CharThenBackspaceRestores | Assets/Scripts/VirtualKeyboardController.cs:195-203 | A one-letter key followed by Backspace restores the buffer. |
| Keyboard.EnterSubmitsTrimmedAndHides | Assets/Scripts/VirtualKeyboardController.cs:207-211 | Enter gives the trimmed buffer first to the stored callback, then to `OnSubmit`. It then hides the keyboard, destroying the keys and raising `OnClosed`. |
| Keyboard.EventStyleEnterRaisesOnSubmitTwice | Assets/Scripts/VirtualKeyboardController.cs:73-80 | After the event-style `Show(seedText)`, Enter raises `OnSubmit` twice with the same trimmed text. |
| Keyboard.OnlyEnterRaises | Assets/Scripts/VirtualKeyboardController.cs:193-213 | Keys other than Enter raise no event and leave the spawned keys alone. |
| Keyboard.VirtualKeyboardController.Show | Assets/Scripts/VirtualKeyboardController.cs:47-70 | The fields become `AfterShow`. |
| Keyboard.VirtualKeyboardController.Hide | Assets/Scripts/VirtualKeyboardController.cs:82-95 | The fields become `AfterHide`: inactive, no keys, `OnClosed` raised. |
| Keyboard.VirtualKeyboardController.ClearRows | Assets/Scripts/VirtualKeyboardController.cs:216-221 | Every spawned key is destroyed and the list is emptied. |
| Keyboard.VirtualKeyboardController.BuildLayout | Assets/Scripts/VirtualKeyboardController.cs:98-123 | Nothing is added without the rows or the prefab. Otherwise exactly the layout is appended. |
| Keyboard.VirtualKeyboardController.AddRow | Assets/Scripts/VirtualKeyboardController.cs:125-129 | Exactly the row's keys are appended. |
| Keyboard.VirtualKeyboardController.AddKey | Assets/Scripts/VirtualKeyboardController.cs:133-189 | Exactly one key is appended to `_spawned`. |
| Keyboard.VirtualKeyboardController.Press | Assets/Scripts/VirtualKeyboardController.cs:191-214 | The fields become `AfterPress`. |
| CareerFlow.ContainsIC | Assets/Scripts/CareerUiFlow.cs:98-103 | An empty needle is found. Otherwise an empty haystack holds nothing. Otherwise the result holds if and only if the needle occurs ignoring case. |
| CareerFlow.FirstIndexOf | Assets/Scripts/CareerUiFlow.cs:200 | `Array.IndexOf` gives the first position holding the faculty, or −1 when it is absent. |
| CareerFlow.FilterFaculties | Assets/Scripts/CareerUiFlow.cs:95-123 | The nested loops with the `seen` set and the early `break` compute `Filtered`. |
| CareerFlow.CollectCareers | Assets/Scripts/CareerUiFlow.cs:134-140 | The fallback loops compute `MatchedCareers`. |
| CareerFlow.FilterFromMembership | Assets/Scripts/CareerUiFlow.cs:106-122 | A faculty is in the filter's output if and only if it is in the list, matches and was not seen before. |
| CareerFlow.FilterMembership | Assets/Scripts/CareerUiFlow.cs:106-119 | A faculty is kept if and only if its name or id contains q, or one of its careers' names does. |
| CareerFlow.FilterFromNoDuplicates | Assets/Scripts/CareerUiFlow.cs:121 | No faculty is kept twice. |
| CareerFlow.FilterFromKeepsOrder | Assets/Scripts/CareerUiFlow.cs:105-106 | The kept faculties are a subsequence of the master array. |
| CareerFlow.FilterIsOrderedAndDistinct | Assets/Scripts/CareerUiFlow.cs:105-123 | The filter keeps exactly the matching faculties, each once, in master order. |
| CareerFlow.FallbackTestIsContainsIC | Assets/Scripts/CareerUiFlow.cs:138-139 | For a non-empty query, the fallback's test is `ContainsIC` on the career name. |
| CareerFlow.NoMatchingCareerKeepsNone | Assets/Scripts/CareerUiFlow.cs:137-140 | A career list with no matching name contributes nothing to the fallback. |
| CareerFlow.NoMatchingFacultyKeepsNone | Assets/Scripts/CareerUiFlow.cs:134-140 | When no faculty matches, the fallback collects nothing. |
| CareerFlow.FallbackIsAlwaysEmpty | Assets/Scripts/CareerUiFlow.cs:126-159 | The fallback list is reached only when no faculty matched, and then it is always empty. A matching career would already have kept its faculty. |
| CareerFlow.Targets | Assets/Scripts/CareerUiFlow.cs:200-202 | Each button of a filtered list selects the master index of its own faculty. |
| CareerFlow.BlankQueryShowsAll | Assets/Scripts/CareerUiFlow.cs:89-92 | A null, empty or blank query shows the full faculty list with the menu bar active. |
| CareerFlow.SearchShowsMatchingFaculties | Assets/Scripts/CareerUiFlow.cs:87-160 | A search ends on a faculty list whose buttons all select valid master indices, with no back button and no selection. For a trimmed non-empty query that matches, there is one button per matching faculty, in filter order, each selecting that faculty's master index. |
| CareerFlow.SearchTrimmedShowsMatchingFaculties | Assets/Scripts/CareerUiFlow.cs:94-131 | The same for the search on the already trimmed query, once the menu bar is active. |
| CareerFlow.SearchTwiceIsSearchOnce | Assets/Scripts/CareerUiFlow.cs:87-160 | Running the search twice with the same query gives the same screen as running it once. Enter reaches this handler twice. |
| CareerFlow.SelectFacultyGuard | Assets/Scripts/CareerUiFlow.cs:375-384 | An out-of-range index changes nothing. Otherwise `currentFaculty = idx`, the active careers are that faculty's careers (or none for null) and the career list is shown. |
| CareerFlow.CareerButtonsAreSelectable | Assets/Scripts/CareerUiFlow.cs:279-294 | Every career button shown for a faculty carries an index that `SelectCareer` accepts. |
| CareerFlow.SelectCareerGuard | Assets/Scripts/CareerUiFlow.cs:386-391 | An out-of-range index changes nothing. Otherwise `currentCareer = idx` and the info card shows. |
| CareerFlow.SalaryShownIffSomeSalary | Assets/Scripts/CareerUiFlow.cs:441-445 | The salary card shows if and only if the entry, mid or senior salary is neither null nor white space. |
| CareerFlow.CareerUiFlow.constructor | Assets/Scripts/CareerUiFlow.cs:59-61 | `Start` ends on the full faculty list. |
| CareerFlow.CareerUiFlow.ShowFacultyList | Assets/Scripts/CareerUiFlow.cs:341-353 | The fields become `ShowAll`. |
| CareerFlow.CareerUiFlow.ShowFacultyListFiltered | Assets/Scripts/CareerUiFlow.cs:162-206 | The fields become `ShowFiltered`. |
| CareerFlow.CareerUiFlow.SelectFaculty | Assets/Scripts/CareerUiFlow.cs:375-384 | The fields become `AfterSelectFaculty`. |
| CareerFlow.CareerUiFlow.SelectCareer | Assets/Scripts/CareerUiFlow.cs:386-391 | The fields become `AfterSelectCareer`. |
| CareerFlow.CareerUiFlow.OnSearchSubmitted | Assets/Scripts/CareerUiFlow.cs:87-160 | The fields become `Search` of the query. |
| Uploader.ExtractJsonValue | Assets/Scripts/ScreenshotCaptureUploader.cs:212-221 | The result is null for a null or empty json or key, and null when `"key"` does not occur (ignoring case). A result holds no '"'. It is located by `ValueAt`: `i` is the first case-insensitive match of `"key"`, `c` the first ':' at or after `i`, `q1` the first '"' after `c`, and the result is the text from `q1` up to the next '"'. |
| Uploader.LocatedValueIsExtracted | Assets/Scripts/ScreenshotCaptureUploader.cs:214-220 | Conversely, for a non-empty key, any value that `ValueAt` locates is exactly the result. With the previous row, a non-null result is the value after the key's first match, its first ':' and the next two '"'. |
| Uploader.FirstFieldValueWins | Assets/Scripts/ScreenshotCaptureUploader.cs:216-220 | In `{"url":"b","x":"a"}` the value under `url` is "b", not a later quoted text. |
| Uploader.NoColonNoValue | Assets/Scripts/ScreenshotCaptureUploader.cs:217 | With no ':' at or after the key's first match, the result is null, whatever precedes the match. |
| Uploader.QuotedKeyMatchQuotes | Assets/Scripts/ScreenshotCaptureUploader.cs:215-216 | A match of the quoted key starts and ends with '"'. |
| Uploader.TooFewQuotesNoValue | Assets/Scripts/ScreenshotCaptureUploader.cs:217-219 | With fewer than two '"' after the first ':' that follows the key's first match, the result is null, whatever precedes the match. |
| Uploader.NoValueIffScanFails | Assets/Scripts/ScreenshotCaptureUploader.cs:214-219 | For a non-empty json and key, the result is null if and only if one search fails: `"key"` does not occur, no ':' follows its first match, or fewer than two '"' follow that ':'. |
| Uploader.NoneMeansScanFailed | Assets/Scripts/ScreenshotCaptureUploader.cs:216-219 | A null result for a non-empty json and key is explained by the first search that failed. |
| Uploader.SingleFieldKeyAt1 | Assets/Scripts/ScreenshotCaptureUploader.cs:216 | In `{"key":"v"}` the key is found right after the brace. |
| Uploader.SingleFieldColon | Assets/Scripts/ScreenshotCaptureUploader.cs:217 | In `{"key":"v"}` the first ':' after the key is the separator, when the key holds no ':'. |
| Uploader.SingleFieldQuotes | Assets/Scripts/ScreenshotCaptureUploader.cs:218-220 | In `{"key":"v"}` the two '"' after the colon enclose exactly v, when v holds no '"'. |
| Uploader.ExtractFromSingleField | Assets/Scripts/ScreenshotCaptureUploader.cs:212-221 | Round trip: the scan returns v from `{"key":"v"}` when the key is non-empty and holds no ':', and v holds no '"'. |
| Uploader.CatboxUrl | Assets/Scripts/ScreenshotCaptureUploader.cs:155-171 | A Catbox answer is accepted if and only if the request succeeded and the trimmed body starts with "http://" or "https://". The URL is the trimmed body. |
| Uploader.JsonUrl | Assets/Scripts/ScreenshotCaptureUploader.cs:173-210 | The Imgur and custom uploaders yield a URL only when the setting is non-empty and the request succeeded, and that URL is the non-empty JSON value under the key. Conversely, with the setting set and a successful request, a non-empty value under the key is the URL. |
| Uploader.UploadedUrl | Assets/Scripts/ScreenshotCaptureUploader.cs:128-210 | A URL comes only from a successful request and is non-empty. The chosen host's rule decides it: for Catbox, a URL exists if and only if the request succeeded and the trimmed body is an http(s) URL, and it is that body; for Imgur (custom), if and only if the client id (endpoint) is set, the request succeeded and the value under "link" ("url") is non-empty, and it is that value. |
| Uploader.FailedRequestGivesNoUrl | Assets/Scripts/ScreenshotCaptureUploader.cs:128-140 | Every uploader first reports null, so a failed request never yields a URL, whatever the host. |
| Uploader.CatboxUrlIsTrimmed | Assets/Scripts/ScreenshotCaptureUploader.cs:167 | An accepted Catbox URL has no white space at either end. |
| Uploader.DoubleTriggerStartsTwoCaptures | Assets/Scripts/ScreenshotCaptureUploader.cs:57-74 | As written: with a countdown, two triggers start two routines and both go on to capture. |
| Uploader.StepKeepsValid | Assets/Scripts/ScreenshotCaptureUploader.cs:57-146 | With the busy flag set at trigger time, every event keeps "at most one routine, and `isBusy` exactly when one runs". |
| Uploader.AtMostOneCaptureInFlight | Assets/Scripts/ScreenshotCaptureUploader.cs:57-146 | With the busy flag set at trigger time, no event sequence ever has two captures under way. |
| Uploader.BusyTriggerIsIgnored | Assets/Scripts/ScreenshotCaptureUploader.cs:59 | A trigger while `isBusy` is ignored. |
| Uploader.EndClearsBusyAndKeepsUrlOnFailure | Assets/Scripts/ScreenshotCaptureUploader.cs:118-145 | The end of a capture clears `isBusy`. `lastUrl` changes only to an accepted non-empty URL of a taken shot and stays otherwise. |
| Uploader.OnlyEndChangesUrl | Assets/Scripts/ScreenshotCaptureUploader.cs:142 | No event other than the end of a capture touches `lastUrl`. |
| Uploader.ScreenshotCaptureUploader.TriggerCaptureAndUpload | Assets/Scripts/ScreenshotCaptureUploader.cs:57-60 | The state becomes the corrected `Trigger`. |
| Uploader.ScreenshotCaptureUploader.BeginCaptureUploadRoutine | Assets/Scripts/ScreenshotCaptureUploader.cs:107-110 | The state becomes `BeginCapture`. |
| Uploader.ScreenshotCaptureUploader.FinishCaptureUploadRoutine | Assets/Scripts/ScreenshotCaptureUploader.cs:118-145 | The state becomes `EndCapture`. The URL passed on is the accepted upload, or none. |
| Uploader.ScreenshotCaptureUploader.DiscardLastShot | Assets/Scripts/ScreenshotCaptureUploader.cs:62-65 | Only the kept shot is dropped. |
| QrDisplay.RecordedExactlyActive | Assets/Scripts/QRDisplayController.cs:106-108 | The record holds exactly the listed objects that were active, each once. |
| QrDisplay.OpenTwiceIsOpenOnce | Assets/Scripts/QRDisplayController.cs:103-111 | Opening an open panel changes nothing, so `SetPreview` then `ShowQR` disables the background only once. |
| QrDisplay.OpenDisablesBackground | Assets/Scripts/QRDisplayController.cs:103-111 | Opening a closed panel activates it, leaves every listed object inactive and records exactly those it switched off. |
| QrDisplay.OpenThenCloseRestores | Assets/Scripts/QRDisplayController.cs:75-110 | Opening a closed panel and closing it again gives every object its original flag back, leaves the panel inactive and the record empty. |
| QrDisplay.ClipboardText | Assets/Scripts/QRDisplayController.cs:56 | The URL goes to the clipboard if and only if copying is on and the URL is non-empty. |
| QrDisplay.BrowserUrl | Assets/Scripts/QRDisplayController.cs:90 | The browser opens the last URL if and only if it is non-empty. |
| QrDisplay.QRDisplayController.EnsurePanelOpen | Assets/Scripts/QRDisplayController.cs:94-112 | The loop leaves the scene as `EnsureOpen` gives it. |
| QrDisplay.QRDisplayController.SetPreview | Assets/Scripts/QRDisplayController.cs:40-50 | It opens the panel as `EnsureOpen` does and shows the preview when there is a texture. |
| QrDisplay.QRDisplayController.ShowQR | Assets/Scripts/QRDisplayController.cs:53-71 | It records the URL, returns `ClipboardText`, opens the panel and shows the code. |
| QrDisplay.QRDisplayController.Close | Assets/Scripts/QRDisplayController.cs:73-86 | The loop leaves the scene as `CloseScene` gives it, and the images are cleared. |
| QrDisplay.QRDisplayController.OpenURLInBrowser | Assets/Scripts/QRDisplayController.cs:88-91 | The URL handed to the browser is `BrowserUrl` of the last URL. |
| LandmarkOverlay.DotCount | Assets/Scripts/HandLandmarkOverlay.cs:44 | One dot in index-tip mode, otherwise one per landmark. |
| LandmarkOverlay.Placements | Assets/Scripts/HandLandmarkOverlay.cs:50-58 | Dot i sits at ((x − 0.5)·w, (y − 0.5)·h) with x mirrored when asked. Index-tip mode reads landmark 20 and fails with fewer than 21 landmarks. |
| LandmarkOverlay.MirrorFlipsX | Assets/Scripts/HandLandmarkOverlay.cs:53-57 | Mirroring negates the canvas x and keeps y. |
| LandmarkOverlay.PlaceStaysOnCanvas | Assets/Scripts/HandLandmarkOverlay.cs:53-57 | A landmark in [0,1]² lands inside the canvas rectangle centred on its pivot. |
| LandmarkOverlay.GrownSize | Assets/Scripts/HandLandmarkOverlay.cs:25-30 | The pool size becomes max(old size, count). |
| LandmarkOverlay.SizeAfterIsLargestRequest | Assets/Scripts/HandLandmarkOverlay.cs:23-33 | After any calls, the pool is as large as its first size or the largest request, whichever is larger. It never shrinks. |
| LandmarkOverlay.HandLandmarkOverlay.EnsurePoolSize | Assets/Scripts/HandLandmarkOverlay.cs:23-33 | The pool grows to max(old size, count). Old dots are kept in order and new ones appended fresh. Exactly the dots below `count` are active and positions are untouched. |
| LandmarkOverlay.HandLandmarkOverlay.Update | Assets/Scripts/HandLandmarkOverlay.cs:35-60 | Without valid data every dot is hidden. Otherwise exactly `count` dots are active and placed as `Placements` says, and index-tip mode with too few landmarks fails after resizing. |
| SemesterRows.Rows | Assets/Scripts/SemesterPanel.cs:24-41 | max(subject count, 6) rows: the subjects first, in order, with name and credits, then placeholders. |
| SemesterRows.MissingSemesterShowsSixPlaceholders | Assets/Scripts/SemesterPanel.cs:24-41 | A null semester or subject list gives exactly six placeholders. |
| SemesterRows.FullSemesterHasNoPlaceholder | Assets/Scripts/SemesterPanel.cs:37 | Six or more subjects give no placeholder. |
| SemesterRows.SemesterPanel.Populate | Assets/Scripts/SemesterPanel.cs:18-42 | All old rows are destroyed, from the last down, before the new rows `Rows(sem)` are added. |

## Left out

- The tracker connection (`HandDataReceiver`, `BodyDataReceiver`): a UDP thread and JSON decoding. Its outputs are frame inputs: validity, pointer, pinch, fist, presence-with-grace and the last sample time. `BodyDataReceiver` is not part of this model.
- Engine arithmetic:
  - `Vector2.SmoothDamp` of the pointer, and the One-Euro filter's lerps (the new `xHat`/`dxHat`), are frame inputs.
  - `Mathf.SmoothDamp` of the cursor alpha is a frame input.
  - Only the decisions and clamps around them are modelled.
- Floating-point rounding, NaN and infinities. Reals stand for floats. `Common.Fill` treats `0/0` as fill 0.
- Engine geometry (`GetWorldCorners`, `WorldToScreenPoint`, `RectangleContainsScreenPoint`, `ScreenPointToLocalPointInRectangle`). Target and viewport rectangles are given in screen space, and a hit is `Rect.Contains` on them.
- Rendering: ring images, colours, sprites, sizes, key and button prefabs, canvas groups, sibling order, icon binding, button names, the cursor's drawing offsets, and `ConfigureDwell`'s per-button settings.
- Cross-target hover arbitration: the code has none, so none is modelled. Overlapping selectables accrue independently.
- `VirtualKeyboardController`'s `_onCancel`: it is stored but never invoked, so it is not modelled.
- `CareerUiFlow`:
  - `PrimeMenuCooldown`, `SetInputMode`, the pose overlays and `ApplyCareer`'s text fields are not modelled; only the salary visibility rule of `ApplyCareer` is.
  - The back button is assumed to be present.
  - Rebuilding the menu is modelled as the list of button targets.
- `ScreenshotCaptureUploader`:
  - Screen capture, PNG encoding, the HTTP requests and the countdown coroutine are I/O and frame timing.
  - A request is a `Response` (success flag and body).
  - A capture is a flag `shotTaken`.
  - The countdown is an event.
- `QRDisplayController`: QR generation (ZXing), textures and the `onClosed` event. The panel backdrop colour is not modelled.
- `SemesterPanel`: Unity's deferred `Destroy` is modelled as immediate removal. `SetHeader` only sets a text.
- Pose overlays, `TuitionFeesBubles`, `GlassBlurBinder`, `FitQuadToCamera`, `WebcamFullScreen`, `QrPopupController`, `CareerExtraMenu`, `ProgramDetailsController`, `SubjectRow`: rendering, devices and panel glue. They are not part of this model.
- Text.FoldCase: folds ASCII letters only. `OrdinalIgnoreCase` also folds other letters, so `ContainsIC` and `ExtractJsonValue` are modelled for case differences in ASCII only.
- Text.IsWhiteSpace: the .NET white-space set is listed by code point. It is not derived from Unicode categories.
- Uploader.ExtractJsonValue: escapes and nesting are not decoded, as in the source. The encode-then-scan round trip is proved for one-field objects only; for any input the result is located by `ValueAt`.
- HandPinch.FiringStartsCooldown: `_prevPinch` ends true after a firing frame, not false. Line 84 stores the held pinch after `StartCooldown` cleared it. The model follows the code.

## Findings

| source | as written | input that shows it | evidently intended | confidence | as-written member | corrected member |
|---|---|---|---|---|---|---|
| Assets/Scripts/ScreenshotCaptureUploader.cs:57-109 | `TriggerCaptureAndUpload` checks `isBusy`, but `isBusy` is set only when `CaptureUploadRoutine` begins, after the countdown | `useCountdown` with `countdownSeconds` > 0.9; `TriggerCaptureAndUpload` twice during the countdown: two routines count down, then both capture and upload | at most one capture in flight: the component is busy from the moment a routine is started | not executed | Uploader.DoubleTriggerStartsTwoCaptures | Uploader.AtMostOneCaptureInFlight |
