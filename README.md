# Sticker canvas: a Dafny model

The application lets a user place emoji stickers on a 600 x 400 canvas. A sticker
is added at a random position snapped to a 40-pixel grid. It can be dragged, and on
release it is snapped again and clamped into the canvas. A double-click deletes it, and
a button clears the canvas. This project models the state and the arithmetic behind
those interactions and proves their properties:

- `grid.dfy`, module `Grid`: `snapToGrid`, i.e. `Math.round(v / 40) * 40`, over
  exact reals. `Math.round` rounds half-way values toward positive infinity:
  `Round(x) = floor(x + 1/2)`. The source defines `snapToGrid` twice, identically, in
  `src/App.tsx:18-20` and `src/components/StickerCanvas.tsx:30-32`. It is modelled once.
- `store.dfy`, module `Store`: the shell's sticker list (`src/App.tsx`). The pure list
  updates are functions: `Moved` is the `map` of `updateStickerPosition` and `Without`
  is the `filter` of `deleteSticker`. The state cell is class `StickerStore`, whose
  methods replace the list, keep the invariant (`WellFormed`: ids pairwise distinct,
  every sticker 60 x 60 inside `[0, 540] x [0, 340]`) and state the new list exactly.
- `canvas.dfy`, module `Canvas`: the canvas component
  (`src/components/StickerCanvas.tsx`). This covers where a drag comes to rest (`Settle`:
  snap, then clamp), the hover cell, and the per-sticker handlers wired to the store.
  Class `StickerCanvas` adds one invariant on top of the store's: every sticker rests
  on a grid line or on the right or bottom edge (`AllSettled`). `Walkthrough` is a
  scenario in which three stickers are added, one dragged to (1000, -50) lands at
  (540, 0), one is deleted, and the canvas is cleared.

The browser's `Math.random` and `Date.now` are inputs. `AddSticker` takes the two
random fractions (each in `[0, 1)`) and the generated id (not already in the list) as
parameters.

Three facts about the program shape the model:
- `Math.round` rounds halves up, not away from zero: `Snap(-20) == 0` and
  `Snap(-60) == -40` (`SnapNegativeHalfway`).
- The code clamps with the literals 540 and 340. These are 600 - 60 and 400 - 60,
  because every sticker is 60 x 60.
- 540 and 340 are half a cell past a grid line. So a sticker dragged past the right
  or bottom edge rests at 540 or 340, which is off the grid. `SettleLands` proves that
  this happens exactly when the release point is at or past the edge.

## Model

| member | source | states |
|---|---|---|
| `Grid.Round` | src/App.tsx:19 | `Math.round(x)` is the integer `n` with `n - 1/2 <= x < n + 1/2`: nearest integer, ties up |
| `Grid.RoundUnique` | src/App.tsx:19 | that window determines the rounded value uniquely |
| `Grid.RoundHalfUp` | src/App.tsx:19 | `k + 1/2` rounds to `k + 1` and `k - 1/2` to `k`, for negative `k` too |
| `Grid.RoundMonotone` | src/App.tsx:19 | rounding is monotone |
| `Grid.Snap` | src/App.tsx:18-20 | `snapToGrid`: the result is an integer multiple of 40 and `r - 20 <= v < r + 20`, a half-way value going to the line above |
| `Grid.SnapFixesGrid` | src/App.tsx:18-20 | a multiple of 40 snaps to itself |
| `Grid.SnapWindowUnique` | src/App.tsx:18-20 | conversely, a grid line whose window `[r - 20, r + 20)` holds `v` is the value `v` snaps to, so `Snap` is exactly the nearest line, ties up |
| `Grid.SnapIdempotent` | src/components/StickerCanvas.tsx:30-32 | `Snap(Snap(v)) == Snap(v)` |
| `Grid.SnapNearest` | src/components/StickerCanvas.tsx:30-32 | no multiple of 40 is nearer to `v` than `Snap(v)` |
| `Grid.SnapMonotone` | src/components/StickerCanvas.tsx:30-32 | `v <= w` implies `Snap(v) <= Snap(w)` |
| `Grid.SnapNegativeHalfway` | src/components/StickerCanvas.tsx:30-32 | `Snap(-20) == 0`, `Snap(-60) == -40`, `Snap(20) == 40`: halves go up, also for negative drag coordinates |
| `Store.Clamp` | src/App.tsx:52 | `max(0, min(hi, v))` lies in `[0, hi]`, is `v` inside the range, `0` below it and `hi` above it |
| `Store.RandomPosition` | src/App.tsx:22-32 | for fractions in `[0, 1)`, x is a multiple of 40 in `[0, 520]` and y a multiple of 40 in `[0, 320]` |
| `Store.RandomPositionCovers` | src/App.tsx:22-32 | every such grid point is produced by some fractions, so the range is exactly those points |
| `Store.NewSticker` | src/App.tsx:36-43 | the new record has the given id and emoji, the random position, size 60 x 60, and lies inside the canvas |
| `Store.AppendKeepsWellFormed` | src/App.tsx:45 | appending an in-canvas sticker with a fresh id keeps ids distinct and adds exactly that id |
| `Store.Moved` | src/App.tsx:49-55 | same length and order; every record keeps id, emoji and size; records with another id are unchanged; records with the id get `x = Clamp(x, 540)` and `y = Clamp(y, 340)` |
| `Store.MovedAbsent` | src/App.tsx:48-56 | moving an absent id changes nothing |
| `Store.MovedIdempotent` | src/App.tsx:48-56 | repeating a move is the same as doing it once |
| `Store.MovedKeepsWellFormed` | src/App.tsx:48-56 | moving keeps distinct ids and bounds, whatever the requested coordinates, and keeps the id set |
| `Store.Without` | src/App.tsx:59 | a record remains in the result if and only if it was in the list and has another id |
| `Store.WithoutAppend` | src/App.tsx:59 | deleting distributes over concatenation, so the surviving records keep their relative order |
| `Store.WithoutAbsent` | src/App.tsx:58-60 | deleting an absent id changes nothing |
| `Store.WithoutIds` | src/App.tsx:58-60 | after deleting, the id set is the old one minus that id |
| `Store.WithoutIdempotent` | src/App.tsx:58-60 | deleting twice is the same as deleting once |
| `Store.WithoutRemovesOne` | src/App.tsx:58-60 | with distinct ids, deleting a present id shortens the list by exactly one |
| `Store.WithoutKeepsDistinct` | src/App.tsx:58-60 | deleting keeps ids pairwise distinct |
| `Store.WithoutKeepsWellFormed` | src/App.tsx:58-60 | deleting keeps the store invariant |
| `Store.StickerStore.constructor` | src/App.tsx:16 | the list starts empty and well formed |
| `Store.StickerStore.AddSticker` | src/App.tsx:34-46 | given a fresh id, appends exactly the new 60 x 60 sticker at the end; earlier records are unchanged and in order; ids stay distinct |
| `Store.StickerStore.UpdateStickerPosition` | src/App.tsx:48-56 | the new list is `Moved(old list, id, x, y)`; the invariant and the id set are kept |
| `Store.StickerStore.DeleteSticker` | src/App.tsx:58-60 | the new list is `Without(old list, id)`; the id leaves the id set |
| `Store.StickerStore.ClearAllStickers` | src/App.tsx:62-64 | the list becomes empty, whatever it held, so clearing twice is the same as once |
| `Canvas.Settle` | src/components/StickerCanvas.tsx:34-38 | drag end snaps and the store's update clamps (src/App.tsx:52): the result rests on a grid line in `[0, hi]` or on `hi`, and is the snapped point when that is in range |
| `Canvas.SettleCases` | src/components/StickerCanvas.tsx:34-38 | on an axis bounded half a cell past a grid line, the resting place is the bound when the release point is at or past it, 0 below 20, and otherwise the snapped point strictly inside |
| `Canvas.EdgesOffGrid` | src/App.tsx:52 | 540 and 340 are 13.5 and 8.5 cells, so neither is a grid line |
| `Canvas.SettleLands` | src/components/StickerCanvas.tsx:34-38 | any release point rests in `{0, 40, ..., 520} ∪ {540}` by `{0, 40, ..., 320} ∪ {340}`; it is off the grid exactly when the release point is at or past 540 (340) |
| `Canvas.DragEndLands` | src/components/StickerCanvas.tsx:34-38 | after drag end and the store update, the dragged id rests at the settled coordinates and every other record is unchanged |
| `Canvas.DragEndKeepsSettled` | src/components/StickerCanvas.tsx:34-38 | drag end keeps every sticker on a grid line or an edge |
| `Canvas.AddKeepsSettled` | src/App.tsx:34-46 | a newly added sticker starts on a grid line, so adding keeps every sticker settled |
| `Canvas.DeleteKeepsSettled` | src/components/StickerCanvas.tsx:143 | deleting keeps every remaining sticker settled |
| `Canvas.HoveredCount` | src/components/StickerCanvas.tsx:138-146 | the number of rendered stickers drawn hovered is at most the list length, and zero exactly when no sticker has the hovered id |
| `Canvas.HoveredCountExact` | src/components/StickerCanvas.tsx:144 | while ids are distinct, exactly one rendered sticker is drawn hovered when the cell holds a rendered id, and none otherwise |
| `Canvas.StickerCanvas.constructor` | src/components/StickerCanvas.tsx:28 | the hover cell starts empty |
| `Canvas.StickerCanvas.IsHovered` | src/components/StickerCanvas.tsx:144 | nothing is hovered while the cell is empty; a hovered sticker's id is the only id drawn hovered |
| `Canvas.StickerCanvas.AtMostOneHovered` | src/components/StickerCanvas.tsx:28 | in any valid canvas state, at most one rendered sticker is drawn hovered |
| `Canvas.StickerCanvas.HandleDragEnd` | src/components/StickerCanvas.tsx:34-38 | forwards the snapped coordinates, never the raw ones, with the given id: the new list is `Moved(old, id, Snap(x), Snap(y))` |
| `Canvas.StickerCanvas.DragEnd` | src/components/StickerCanvas.tsx:142 | a sticker's drag-end handler updates that sticker's own id with the snapped coordinates |
| `Canvas.StickerCanvas.DoubleClick` | src/components/StickerCanvas.tsx:143 | a double-click deletes exactly that sticker's id |
| `Canvas.StickerCanvas.MouseEnter` | src/components/StickerCanvas.tsx:145 | after mouse enter, a sticker is hovered if and only if it has the entered sticker's id |
| `Canvas.StickerCanvas.MouseLeave` | src/components/StickerCanvas.tsx:146 | after mouse leave, no sticker is hovered |
| `Canvas.StickerCanvas.ClearAll` | src/components/StickerCanvas.tsx:193-197 | the control is disabled on an empty list, and either way the list ends empty |
| `Canvas.Walkthrough` | src/components/StickerCanvas.tsx:138-148 | the scenario's outcome: the dragged sticker rests at (540, 0), two stickers remain after the delete, and the list is empty after clearing |

## Left out

- Rendering: the Konva stage, layer and images, and the offscreen-canvas glyph rasterisation with shadows and device-pixel-ratio scaling. These are foreign library and DOM calls.
- Hover cosmetics (scale, opacity, shadow). They have no effect on the data.
- PNG export (`handleDownload`). It is browser I/O: `toDataURL`, a DOM anchor, and `Date.now` in the file name.
- Randomness and clocks: `Math.random` and `Date.now` become parameters of `AddSticker`. The source does not guarantee that a generated id is fresh; the model requires it.
- Floating point: coordinates are exact reals, with no IEEE rounding error in the division or in `Math.round`.
- Grid.Snap: the `gridSize` parameter of `snapToGrid` is fixed at its default, 40, because no caller passes another value.
- The palette (`src/components/StickerPanel.tsx`) is a constant table whose buttons call `addSticker` with their emoji. The header and button components, and the markup of `App.tsx`, are presentational.
- React's batching and re-rendering: each handler is modelled as running to completion on the current list.
