# App shell of the hotel-stay companion

This project models the top-level `App` component of the guest companion web
app. The component does four things:

- It holds the signed-in session and picks the step view to show: login,
  dashboard or souvenir.
- It owns a floating "API Keys" button. The guest can drag the button
  so that its top-left corner stays at least 8px from the left and top
  edges and at least 48px from the right and bottom edges. On release the button snaps to the left
  edge when the point 24px right of its left edge is left of the viewport's
  middle, and to the right edge otherwise. Its resting point is stored
  under `API_KEY_FAB_POS`.
- It keeps two credential slots, the text key `GEMINI_API_KEY` and the image
  key `IMAGE_API_KEY`. A modal edits them. Save trims each input, hands it
  to the generation service, stores it (or removes it when blank) and sets
  the slot's "saved" flag. Clicking the button opens the modal when a key
  is missing and closes it when both are saved, except right after a drag.
- On mount it restores the stored button position and the stored keys. It
  opens the modal when either key is missing.

The model has two layers:

- `ShellSpec` is a pure state machine. `Snapshot` holds every piece of state:
  the React state, the refs, the browser storage and the last values passed
  to the service setters. `Step` handles one event and `Mount` gives the
  state right after mounting.
- `AppShell.Shell` is a class with the same fields. Its handler methods
  change those fields step by step, as the component does. Each is proved to
  move the state exactly as the matching `ShellSpec` function says.

`ShellLaws` proves what the component guarantees about that machine:

- the drag stays in the band;
- a drag suppresses the tap;
- the resting point survives a reload;
- Save handles each slot on its own;
- each saved flag agrees with storage, as long as nothing but this shell
  writes the keys.

There are four supporting modules:

- `Geometry`: the clamp and snap arithmetic.
- `Text`: `String.prototype.trim` over ECMAScript white space.
- `PositionCodec`: the `JSON.stringify` text of a point and its decoder, with
  both round trips proved.
- `Views`: the step resolver.

Inputs from the browser become event parameters:

- the pointer coordinates;
- the button's bounding-box corner;
- `window.innerWidth` and `window.innerHeight`, read at each event, as the
  handlers do.

Storage is a `map<string, string>` inside the state. Coordinates are whole
pixels (`int`).

Behaviours of the code that are easy to miss:

- The code has no movement threshold: every pointer-move during a drag sets
  "moved" (App.tsx:37), so a move that leaves the position unchanged still
  suppresses the click.
- "moved" stays set until the next pointer-down (App.tsx:135), so every
  click until then does nothing, a keyboard activation of the focused button
  included (`ShellLaws.ClicksIgnoredAfterDrag`).
- Pointer-down is not guarded. A second pointer-down during a drag restarts
  it with a fresh offset and clears "moved".
- The position is not always inside the clamp band. The initial `(16,16)` and
  a restored stored value are adopted as they are, unclamped; only moves and
  releases clamp.
- Snapping is stable on a viewport at most 56px wide, where both edge
  positions are 8, and on one more than 64px wide. On a viewport 57 to 64px
  wide it is not: a button snapped to the left inset snaps to the right bound
  on the next tap (`Geometry.SnapUnstableWhenNarrow`, `Geometry.SnapStableIff`).

Some members carry no contract of their own, and other rows state what they do:

- `PositionCodec.DecodePoint` (App.tsx:24-27) is pinned down by
  `DecodeEncode`, `DecodeOnlyEncodings` and `DecodeRejects`.
- The `ShellSpec` event functions are pinned down by `ShellLaws`:
  - `Down` by `DownStartsDrag`;
  - `Move` by `MoveStaysInBand` and `IdlePointerIsNoOp`;
  - `Up` by `UpSnapsAndPersists`;
  - `Click` by `ClickSetsModal`;
  - `Save` by `SaveSlots`;
  - `RestorePosition` and `LoadCredentials`, through `Mount`, by `MountState`.
- The `AppShell.Shell` methods are proved equal to these functions.

## Model

| member | source | states |
|---|---|---|
| Geometry.Upper | App.tsx:40-41 | the far limit is `extent - 48` when that is at least 8, and 8 otherwise |
| Geometry.Clamp | App.tsx:42-45 | the result lies in `[8, Upper(extent)]`; it is the input when the input is in the band, 8 below it and `Upper` above it |
| Geometry.SnapX | App.tsx:53 | the result is one of the two edge positions: the left inset exactly when `x + 24` is left of the viewport's middle, and the right limit otherwise |
| Geometry.ClampIsNearest | App.tsx:42-45 | no point of the band is closer to the input than the clamped value |
| Geometry.ClampIdempotent | App.tsx:54 | clamping a clamped coordinate changes nothing |
| Geometry.SnapStable | App.tsx:53 | on a viewport wider than 64px, snapping a snapped coordinate gives it back |
| Geometry.SnapStableWhenTiny | App.tsx:51-53 | on a viewport at most 56px wide, snapping a snapped coordinate gives it back |
| Geometry.SnapUnstableWhenNarrow | App.tsx:51-53 | on a viewport 57 to 64px wide, a button snapped to the inset snaps to the right bound, which is not the inset |
| Geometry.SnapStableIff | App.tsx:51-53 | snapping is stable for every coordinate exactly when the viewport is at most 56px or more than 64px wide |
| Text.Trim | App.tsx:181-182 | the result is no longer than the input and neither starts nor ends with white space |
| Text.TrimOfPadded | App.tsx:181-182 | white space, then a core that neither starts nor ends with white space, then white space, trims to exactly that core |
| Text.TrimSplits | App.tsx:181-182 | every text is a white space prefix, its trim and a white space suffix |
| Text.TrimEmptyIff | App.tsx:181-185 | a text trims to "" exactly when it is all white space |
| Text.TrimIdempotent | App.tsx:181-182 | trimming twice is trimming once |
| Text.TrimExamples | App.tsx:181-182 | a blank input trims to "" and `" abc "` trims to `"abc"` |
| PositionCodec.IntToString | App.tsx:57 | the numeral is non-empty, starts with '-' exactly for negatives, and is digits after that |
| PositionCodec.IntRoundTrip | App.tsx:57 | parsing a printed integer gives it back |
| PositionCodec.ParseIntCanonical | App.tsx:24-25 | a numeral that parses is exactly the printed form of its value |
| PositionCodec.EncodePoint | App.tsx:57 | the stored text opens with `{"x":` and closes with `}` |
| PositionCodec.IndexOf | App.tsx:24 | the index is of the first occurrence, or the length when there is none |
| PositionCodec.SplitFieldsSound | App.tsx:24-25 | a successful split has cut the text into the frame and its two numerals |
| PositionCodec.SplitEncoding | App.tsx:24 | the frame of an encoding splits back into its two numerals |
| PositionCodec.DecodeEncode | App.tsx:21-57 | the text the release handler stores decodes back to the same point |
| PositionCodec.DecodeOnlyEncodings | App.tsx:24-27 | whatever decodes to a point is exactly that point's encoding |
| PositionCodec.DecodeRejects | App.tsx:22-30 | empty text, non-JSON text and a non-numeric coordinate are all rejected |
| Views.ResolveView | App.tsx:91-113 | login exactly when there is no session or the status is unrecognised; dashboard exactly for upcoming or during-stay; souvenir exactly for completed |
| Views.ViewDependsOnStatusOnly | App.tsx:96-112 | two sessions with the same status show the same view, whatever their bookings |
| Views.ResolveViewExamples | App.tsx:92-111 | the four worked cases of the resolver |
| ShellSpec.Lookup | App.tsx:69-70 | the stored text, or "" when the key is absent |
| ShellSpec.StoreOrRemoveLookup | App.tsx:185-194 | after set-or-remove, the key reads back as the value (absent when blank) and every other key is unchanged |
| ShellLaws.KeysDistinct | App.tsx:21-70 | the three storage keys are pairwise different |
| ShellLaws.DownStartsDrag | App.tsx:131-136 | pointer-down starts a drag, clears "moved", records the grab offset, and changes nothing else |
| ShellLaws.MoveStaysInBand | App.tsx:35-46 | a move during a drag sets "moved"; it keeps both coordinates in the band, follows the pointer wherever that stays in the band, and changes nothing else |
| ShellLaws.IdlePointerIsNoOp | App.tsx:36-49 | with no drag in progress, move and release change nothing |
| ShellLaws.UpSnapsAndPersists | App.tsx:48-58 | release ends the drag and snaps `x` left exactly when `x + 24` is left of the middle, and right otherwise; it clamps `y`, stores exactly the encoding of the resting point (which decodes back to it), and changes nothing else |
| ShellLaws.TapKeepsRestingPlace | App.tsx:48-136 | on a viewport wider than 64px, a tap on a button at rest leaves it where it was |
| ShellLaws.RunConcat | App.tsx:35-58 | handling two event sequences in turn is handling their concatenation |
| ShellLaws.MovesDuringDrag | App.tsx:35-46 | any run of moves keeps the drag going, sets "moved" once there is one, and changes only the position and "moved" |
| ShellLaws.DragSuppressesClick | App.tsx:37-138 | down, one or more moves, release and click leave the modal as it was |
| ShellLaws.TapReachesClick | App.tsx:135-144 | down, release and click leave the modal closed exactly when both keys are saved |
| ShellLaws.ClicksIgnoredAfterDrag | App.tsx:135-138 | while "moved" is set, any number of clicks leave the whole state unchanged |
| ShellLaws.ClickSetsModal | App.tsx:137-144 | the click does nothing after a drag; otherwise the modal is open exactly when either key is not saved |
| ShellLaws.SaveSlots | App.tsx:180-197 | each saved flag is set exactly when its input is not all white space; storage holds the trimmed key, or no entry when blank, and other keys are kept; the service gets the trimmed values and the modal closes |
| ShellLaws.SaveSyncs | App.tsx:185-196 | after Save, both flags agree with storage, whatever came before |
| ShellLaws.SaveSlotsIndependent | App.tsx:181-196 | the text slot's outcome does not depend on the image slot |
| ShellLaws.MountInSync | App.tsx:68-84 | right after mounting, each flag agrees with its stored key |
| ShellLaws.StepPreservesSync | App.tsx:35-197 | no event breaks the agreement between flags and storage |
| ShellLaws.RunPreservesSync | App.tsx:35-197 | no sequence of events breaks it |
| ShellLaws.ForeignRemovalBreaksSync | App.tsx:185-195 | removing the text key from outside, while its flag is set, breaks the flag–storage agreement |
| ShellLaws.MountState | App.tsx:9-84 | mounting adopts each non-empty stored key, with flag and service value, and opens the modal exactly when either key is missing; it adopts a position only when the stored text decodes and leaves storage untouched |
| ShellLaws.MountIgnoresMalformedPosition | App.tsx:22-30 | a stored position that is no point's encoding (missing and empty included) leaves the default `(16,16)` |
| ShellLaws.MountTwice | App.tsx:20-84 | mounting again over the storage a mount leaves gives the same state |
| ShellLaws.RestingPlaceSurvivesReload | App.tsx:20-58 | the next mount starts the button where the last drag left it |
| ShellLaws.SaveTextKeyOnly | App.tsx:168-197 | typing a text key and saving with the image field blank flags and stores only the text slot |
| ShellLaws.MountWithTextKeyOnly | App.tsx:68-84 | storage with only a text key mounts with the modal forced open |
| ShellLaws.FirstRunScenario | App.tsx:68-197 | on fresh storage, saving only a text key closes the modal, and the next mount opens it again |
| ShellLaws.LoginShowsSessionView | App.tsx:86-113 | signing in shows the view the session's status selects; that is a view other than login exactly for a recognised status |
| AppShell.Shell.constructor | App.tsx:9-84 | the new shell is `Mount(storage)`, with its flags in agreement with storage |
| AppShell.Shell.RestoreStoredPosition | App.tsx:20-32 | moves the shell as `RestorePosition` |
| AppShell.Shell.LoadStoredKeys | App.tsx:68-84 | moves the shell as `LoadCredentials` |
| AppShell.Shell.OnPointerDown | App.tsx:131-136 | moves the shell as `Down`; a drag is in progress with the grab offset recorded |
| AppShell.Shell.HandleMove | App.tsx:35-46 | moves the shell as `Move`; during a drag both coordinates end in the band, and otherwise nothing changes |
| AppShell.Shell.HandleUp | App.tsx:48-58 | moves the shell as `Up` |
| AppShell.Shell.OnFabClick | App.tsx:137-144 | moves the shell as `Click`; after a drag nothing changes, and otherwise the modal is open exactly when a key is unsaved |
| AppShell.Shell.OnCloseClick | App.tsx:157-162 | the modal closes and nothing else changes |
| AppShell.Shell.OnSaveClick | App.tsx:180-198 | moves the shell as `Save` |
| AppShell.Shell.PersistKeys | App.tsx:185-194 | storage becomes set-or-remove of the text key, then of the image key |
| AppShell.Shell.OnApiKeyChange | App.tsx:168 | only the text input changes |
| AppShell.Shell.OnImageKeyChange | App.tsx:175 | only the image input changes |
| AppShell.Shell.HandleLoginSuccess | App.tsx:86-88 | the session is set, and the view on screen is the one it selects |

## Left out

- Rendering is not modelled: the JSX, the CSS classes, the background image
  and the modal's markup (App.tsx:115-127,145-178,199-211). Only the
  choice of step view is modelled.
- Listener registration and removal on `window` is not modelled
  (App.tsx:60-65). Move and release events reach the handlers directly.
- The handlers are re-created whenever `fabPos` changes, so the model reads
  the current position. An event delivered before React re-renders, which
  would see a stale `fabPos`, is not modelled.
- React's batching and deferral of state updates are not modelled. Each
  handler's updates take effect at once and in order.
- Floating-point coordinates are not modelled: positions and viewport sizes
  are integers. `x + 24 < innerWidth / 2` is written `2 * (x + 24) < width`,
  which is the same test on integers.
- PositionCodec.DecodePoint: accepts only the canonical text
  `{"x":N,"y":N}` with integer numerals, as `JSON.stringify` writes them.
  `JSON.parse` plus the `typeof` checks also accept other spacing, other key
  order, extra fields, fractions and exponents. The model treats all of
  those as malformed and keeps the default position.
- The generation service (`setGeminiApiKey`, `setImageApiKey`) is not part
  of this model. Only the last value passed to each setter is recorded.
- The step components and `types.ts` are not part of this model. A session
  is reduced to its trip status and a booking that holds only the background
  image the shell reads.
- Other writers of `localStorage` are not modelled: another tab of the same
  site, or other code on the page. The component installs no `storage`
  listener. Here storage changes only through this shell's handlers, and
  `MountInSync`, `StepPreservesSync` and `RunPreservesSync` rely on that.
  `ShellLaws.ForeignRemovalBreaksSync` shows that a removal from outside
  leaves the text slot's flag out of step.
- The modal's controls are rendered only while the modal is open
  (App.tsx:152). Here `SaveClick`, `CloseClick`, `ApiKeyChange` and
  `ImageKeyChange` are accepted in every state. This over-approximates the
  reachable behaviour: every law holds in every state, so it also holds in
  the states the component can reach.
- Strings are sequences of Unicode scalar values. JavaScript's lone UTF-16
  surrogates cannot be represented. `trim` is unaffected, because every
  white space code point it strips lies in the Basic Multilingual Plane.
- Storage failures (quota, private mode) are not modelled. `localStorage`
  is a map that always accepts writes.
