# cat-light: the light panel's state machine

cat-light turns a phone screen into a uniform coloured light. The colour is
given by three parameters: brightness, saturation and hue. Nine named scenes
("自然光", "暖光", … "DeepSeek蓝") each set those three parameters to fixed
constants. The user taps a scene tile to select it, drags horizontally
across the colour to step to the previous or next scene, taps the colour to
show or hide the control panel, and moves three sliders to fine-tune the
parameters.

This project models the logic of the single view, `ContentView`. The files are:

- `scenes.dfy` (module `Scenes`) holds the fixed, ordered catalog of nine
  scenes, the preset switch (`PresetFor`), the search that finds a scene's
  position by name (`FirstIndex`, the `firstIndex(where:)` call), and the
  wrap-around steps `Prev` and `Next`.
- `transitions.dfy` (module `Transitions`) treats the view's six state fields
  as a value (`LightState`). It writes each handler that does more than set
  one field as a function from the state before an event to the state after
  it, and proves the lemmas that relate several events: the threshold, the wrap-around in both directions,
  nine leftward drags returning to the start, and a double tap restoring the
  panel.
- `view.dfy` (module `View`) holds the class `ContentView`. Its fields are the
  view's `@State` properties, and its methods are the gesture handlers, which
  assign those fields in place. Each method has three guarantees. Its
  `modifies` clause names the only fields it may change. It keeps `Valid()`:
  the selected scene is a catalog name and the parameters lie in [0, 1]. And
  it leaves the fields equal to what the matching `Transitions` function
  computes from the old state or, for the drag update and the sliders, to the
  old state with that one field replaced.

Four details of the code shape the model:

- In the code, `applyScene` sets only the three parameters. Each caller sets
  `selectedScene` itself before calling it (ContentView.swift:62-63 and
  107-109). So `ApplyScene` here never changes the selected scene.
- The sliders are `Slider(value:in: 0...1)` widgets, which only produce values
  in range. The code does not clamp anything. The setters therefore require a
  value in [0, 1] rather than clamping one.
- The scene tiles and the three sliders are drawn only inside
  `if isPanelVisible` (ContentView.swift:77). So `View.ContentView.TapTile`
  and the three setters require the panel to be shown.
- The initial parameters (0.5, 1.0, 0.0) are not the preset of the initially
  selected scene "自然光" (0.5, 0.7, 0.1). `Transitions.InitialState` records
  this fact. The model does not change it.

## Model

| member | source | states |
|---|---|---|
| `Scenes.Catalog` | cat-light/ContentView.swift:28-38 | the nine scenes with their names, icons and descriptions, in the order dragging cycles through them |
| `Scenes.CatalogShape` | cat-light/ContentView.swift:28-38 | the catalog has nine scenes, the first is "自然光" and the last "DeepSeek蓝" |
| `Scenes.CatalogNamesDistinct` | cat-light/ContentView.swift:28-38 | no two catalog scenes share a name |
| `Scenes.PresetFor` | cat-light/ContentView.swift:168-209 | every preset the switch yields has all three parameters in [0, 1] |
| `Scenes.PresetExactlyForCatalog` | cat-light/ContentView.swift:169-208 | the switch has a case for a name exactly when the name is a catalog name; every other name falls into the no-op default |
| `Scenes.PresetTable` | cat-light/ContentView.swift:170-205 | the constants of each of the nine cases, e.g. "暖光" gives (0.6, 0.8, 0.08) and "DeepSeek蓝" gives (0.55, 0.75, 0.65) |
| `Scenes.FirstIndex` | cat-light/ContentView.swift:54 | a found position is in range and holds a scene with the searched name |
| `Scenes.FirstIndexIsFirst` | cat-light/ContentView.swift:54 | no earlier scene has the name, and the search fails only when no scene has it |
| `Scenes.FirstIndexOfName` | cat-light/ContentView.swift:54 | with distinct names, searching for the name at position k returns k |
| `Scenes.FirstIndexInCatalog` | cat-light/ContentView.swift:54 | searching the catalog succeeds exactly for catalog names, so it always succeeds on the selected scene |
| `Scenes.Prev` | cat-light/ContentView.swift:57 | the rightward step stays in range, goes one back, and goes from the first position to the last |
| `Scenes.Next` | cat-light/ContentView.swift:59 | the leftward step stays in range, goes one forward, and goes from the last position to the first |
| `Scenes.PrevNextInverse` | cat-light/ContentView.swift:56-60 | a rightward step and a leftward step undo each other |
| `Scenes.Forward` | cat-light/ContentView.swift:59 | repeated leftward steps stay in range |
| `Scenes.ForwardWraps` | cat-light/ContentView.swift:59 | up to n leftward steps from i reach i + count, less n past the end; n steps return to i |
| `Transitions.Threshold` | cat-light/ContentView.swift:52 | a drag changes the scene only when its horizontal travel exceeds 50 |
| `Transitions.Initial` | cat-light/ContentView.swift:20-25 | the view starts with the first scene selected, the panel shown and no drag offset |
| `Transitions.Position` | cat-light/ContentView.swift:54 | the selected scene's catalog position, found exactly when the selected scene is a catalog name, and holding that scene |
| `Transitions.ApplyScene` | cat-light/ContentView.swift:168-209 | only brightness, saturation and hue can change; a non-catalog name changes nothing; a catalog name leaves its preset's constants; the state invariant is kept |
| `Transitions.SelectScene` | cat-light/ContentView.swift:62-63 | the body of a completed drag and of a tile tap (lines 108-109): selecting position k leaves that scene selected with its preset applied and keeps the panel, the offset and the invariant |
| `Transitions.TapPanel` | cat-light/ContentView.swift:70-73 | a tap on the colour flips panel visibility and changes nothing else |
| `Transitions.TapPanelTwice` | cat-light/ContentView.swift:72 | two taps on the colour restore the state |
| `Transitions.DragEnd` | cat-light/ContentView.swift:51-68 | every drag end resets the offset to 0, leaves the panel alone and keeps the invariant |
| `Transitions.Swipe` | cat-light/ContentView.swift:48-68 | a whole drag (moves, then lifts) always leaves offset 0 and the panel as it was, keeps the invariant, and changes nothing else when it travels at most 50 |
| `Transitions.InitialState` | cat-light/ContentView.swift:20-25 | the initial state satisfies the invariant and selects the first scene, but its parameters are not that scene's preset |
| `Transitions.DragEndBelowThreshold` | cat-light/ContentView.swift:52-67 | a drag of at most 50 units in either direction changes nothing but resetting the offset |
| `Transitions.DragEndRight` | cat-light/ContentView.swift:56-57 | a rightward drag past 50 from position i selects position (i - 1 + 9) % 9 with its preset applied |
| `Transitions.DragEndLeft` | cat-light/ContentView.swift:58-59 | a leftward drag past 50 from position i selects position (i + 1) % 9 with its preset applied |
| `Transitions.DragEndAboveThreshold` | cat-light/ContentView.swift:53-63 | from any reachable state a drag past 50 selects a different catalog scene, whose name is the catalog entry at the new position and whose preset is applied |
| `Transitions.DragFromFirstScene` | cat-light/ContentView.swift:53-63 | from "自然光" a rightward drag wraps to "DeepSeek蓝" and a leftward one reaches "暖光" |
| `Transitions.SwipeLeftStep` | cat-light/ContentView.swift:58-63 | a leftward drag moves the selected scene's catalog position one forward and applies that scene's preset |
| `Transitions.SwipeLeftAdvances` | cat-light/ContentView.swift:58-59 | a leftward drag advances the selected position from every catalog scene |
| `Transitions.ChainAdvances` | cat-light/ContentView.swift:59 | a chain of steps that each advance a position by one moves it as many places forward as there are steps |
| `Transitions.ChainLastSwipe` | cat-light/ContentView.swift:51-68 | the last drag of a run of drags acts on the state the earlier ones leave |
| `Transitions.FullCycleLeft` | cat-light/ContentView.swift:58-63 | any nine leftward drags past 50 in a row, from any catalog scene, return to the starting scene with its preset applied |
| `View.ContentView.constructor` | cat-light/ContentView.swift:20-25 | the view starts at (0.5, 1.0, 0.0), "自然光", panel shown, offset 0, and satisfies the invariant |
| `View.ContentView.ApplyScene` | cat-light/ContentView.swift:168-209 | modifies only the three parameters, following `Transitions.ApplyScene`, and keeps the invariant |
| `View.ContentView.DragChanged` | cat-light/ContentView.swift:48-50 | records the drag translation as the offset and changes nothing else |
| `View.ContentView.DragEnded` | cat-light/ContentView.swift:51-68 | modifies every field but panel visibility, updating them as `Transitions.DragEnd` prescribes, and keeps the invariant |
| `View.ContentView.TapTile` | cat-light/ContentView.swift:106-110 | callable only while the panel is shown (line 77); modifies only the selected scene and the parameters, following `Transitions.SelectScene`, and keeps the invariant |
| `View.ContentView.TapPanel` | cat-light/ContentView.swift:70-73 | modifies only panel visibility, flipping it |
| `View.ContentView.SetBrightness` | cat-light/ContentView.swift:125 | the brightness slider, present only while the panel is shown (line 77), sets brightness to a value in [0, 1] and nothing else |
| `View.ContentView.SetSaturation` | cat-light/ContentView.swift:136 | the saturation slider, present only while the panel is shown (line 77), sets saturation to a value in [0, 1] and nothing else |
| `View.ContentView.SetHue` | cat-light/ContentView.swift:147 | the hue slider, present only while the panel is shown (line 77), sets hue to a value in [0, 1] and nothing else |

## Left out

- The SwiftUI view tree is not modelled: layout, `LazyVGrid`, `GeometryReader`, fonts, and rendering the colour with `Color(hue:saturation:brightness:)`. Apart from the `if isPanelVisible` guard on the tiles and sliders, which the methods' preconditions carry, it holds no state logic.
- `withAnimation` wrappers affect presentation only. Their bodies are modelled as plain state updates.
- The scene's `UUID` identifier is not modelled, because the name is the lookup key. Icons and descriptions are kept in the catalog as data but play no part in the logic.
- `Double` and `CGFloat` are modelled as `real`. The preset constants are only assigned, never computed with, so binary rounding does not matter. Comparing the drag offset with 50 and 0 is exact in both.
- Swift's `%` truncates toward zero, while Dafny's is Euclidean. Both operands are never negative here (`currentIndex - 1 + scenes.count` is at least 8), so the two agree.
- `View.ContentView.SetBrightness`, `SetSaturation` and `SetHue`: the range [0, 1] is a precondition, because the `Slider` widget guarantees it. The code itself does no clamping.
- `Transitions.ApplyScene` (and `Scenes.PresetFor`, `Scenes.FirstIndex`): names are compared as sequences of code points, while Swift's `switch` and `==` on `String` compare by Unicode canonical equivalence. So a spelling such as "\u{F92E}光", which Swift matches to "冷光", is a non-catalog name here. Only the catalog's own literals ever reach these comparisons (ContentView.swift:23, 62-63, 108-109), so no reachable state tells the two apart.
- `Scenes.PresetExactlyForCatalog`: "no other name has a preset" holds for names compared code point by code point. Under Swift's canonical equivalence a name equivalent to a catalog name also selects that name's preset, as the line above explains.
- `DragGesture`'s translation is a 2-D value, and only its `width` is used. The model passes that width as a number.
