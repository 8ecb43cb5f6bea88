# Fibonacci and Tatami tiling layouts

This project models the two tiling layouts of the penrose window manager's layout
extensions, together with the message handling they share. It then proves what the layouts
promise about the regions they hand out.

- **Fibonacci** walks the client stack in order and keeps a pair of regions, a primary one
  and a remainder. Each client takes the primary region, and the remainder is split again,
  alternately by height and by width, which gives a pinwheel. The walk stops at the last
  client, or at the first client whose primary region is at most `cutoff` pixels wide or
  high. That client also absorbs the remainder.
- **Tatami** places at most six clients in fixed patterns. With two or more clients, the
  first one gets a main region on the left, `floor(w * ratio)` pixels wide. The other clients
  share the side region to its right.
- **Both layouts** handle `ExpandMain` and `ShrinkMain` the same way. They move `ratio` by
  `ratio_step` and clamp the result to 1 or to 0. Any other message is ignored, and they
  never ask to be replaced.

Modules:

- `Geometry` (`geometry.dfy`): the rectangle operations the layouts call. It contains:
  - the `Rect` value type;
  - the split operations, each with the partition property the layouts rely on;
  - a pixel-set meaning of rectangles (`Cells`, `Union`);
  - the notion of a tiling (`Tiles`: inside the region, pairwise separated, covering every
    pixel), with lemmas that refine a tiling.
- `Layouts` (`layout.dfy`): what both layouts share: placements, the closed `Message` type,
  and the ratio adjustment (`Adjust`, and `AdjustAll` for a sequence of messages).
- `FibonacciLayout` (`fibonacci.dfy`):
  - `Subdivision`, `Stop` and `Positions` give the result in closed form.
  - The class `Fibonacci` has the fields of penrose's `Fibonacci` struct: `cutoff`, `ratio`
    and `ratio_step`.
  - Its `Layout` method is penrose's `for` loop over the stack with `break`, proved equal to
    `Positions`.
  - `HandleMessage` updates `ratio` in place.
- `TatamiLayout` (`tatami.dfy`):
  - `Template` follows the `match` on the number of clients in penrose's `Tatami::layout`,
    and `Positions` zips the regions with the stack.
  - The `...Shape` lemmas give each pattern in coordinates.
  - The class `Tatami` has the fields of penrose's `Tatami` struct: `ratio` and `ratio_step`.
- `LayoutNames` (`names.dfy`): the two layouts' display labels compared.
- `Wrappers` (`wrappers.dfy`): `Option`, used for the replacement layout a call may return.

How penrose's Rust terms map onto the model:

- A panic on `expect` becomes a precondition.
  - `Fibonacci.Layout` requires `ratio` in [0, 1]. This is exactly when every fractional
    split succeeds, and it is needed even for an empty stack: the first split happens
    before the loop.
  - `Tatami.Layout` requires `MainFits`: with two or more clients, `floor(w * ratio)` must
    not exceed `w`. `MainFitsUpToOne` shows that any ratio of at most 1 satisfies it.
    `MainTooWide` shows that a large enough ratio above 1 violates it.
- A stack is a `seq<Id>` of window ids, and a screen region is a `Rect` with `nat` fields.
- `crate::pure::geometry` is not part of this model, so its operations are defined here by
  these rules:
  - a split at an absolute width or height fails (`InvalidSplit`) when it exceeds the
    side it cuts;
  - a fractional split fails (`InvalidRatio`) outside [0, 1], and otherwise gives the
    first part `floor(side * p)` pixels;
  - a mid split gives the first half `side / 2` pixels, rounded down;
  - `as_rows(n)` and `as_columns(n)` give `n` parts of `side / n` pixels each, with the
    last part also taking the remainder, and no parts when `n` is 0.
- `(r.w as f32 * ratio) as u32` is `MainWidth`: the product is rounded down, and a negative
  product becomes 0.
- None of the `u32` subtractions at `mod.rs:262-264` can underflow. Each is a `nat`
  subtraction in `Template`, whose well-formedness Dafny checks. It holds because each
  column is `r.h` high and `2 * (r.h / 4) <= r.h`.

## Model

| member | source | states |
|---|---|---|
| Geometry.Rect.SplitAtWidth | src/extensions/layout/mod.rs:219-220 | succeeds exactly when `k <= w` and fails with InvalidSplit otherwise; the parts lie side by side, form the rectangle, and the left part is `k` wide |
| Geometry.Rect.SplitAtWidthPerc | src/extensions/layout/mod.rs:92-94 | succeeds exactly when the ratio is in [0, 1] and fails with InvalidRatio otherwise; the left part is `floor(w * p)` wide and together with the right part forms the rectangle |
| Geometry.Rect.SplitAtHeightPerc | src/extensions/layout/mod.rs:113-115 | the same as the width split, by height: succeeds exactly when the ratio is in [0, 1]; the parts are stacked and form the rectangle |
| Geometry.Rect.SplitAtMidHeight | src/extensions/layout/mod.rs:237 | the parts are stacked and form the rectangle; the top one is `h / 2` high |
| Geometry.Rect.SplitAtMidWidth | src/extensions/layout/mod.rs:244 | the parts lie side by side and form the rectangle; the left one is `w / 2` wide |
| Geometry.Rect.AsRows | src/extensions/layout/mod.rs:250 | exactly `n` full-width rows, each starting where the previous one ends, from the top edge to the bottom edge; every row but the last is `h / n` high |
| Geometry.Rect.AsColumns | src/extensions/layout/mod.rs:259 | exactly `n` full-height columns, each starting where the previous one ends, from the left edge to the right edge; every column but the last is `w / n` wide |
| Geometry.FloorPercIsFloor | src/extensions/layout/mod.rs:93 | the fractional split width is the largest whole number not above `d * p` |
| Layouts.Adjust | src/extensions/layout/mod.rs:126-137 | ExpandMain adds the step and caps at 1, ShrinkMain subtracts it and floors at 0, any other message leaves the ratio unchanged; from a ratio in [0, 1] and a non-negative step the result stays in [0, 1], within one step of the old ratio |
| Layouts.AdjustAll | src/extensions/layout/mod.rs:126-137 | after any sequence of messages, a ratio that started in [0, 1] with a non-negative step is still in [0, 1] |
| Layouts.ExpandRepeatedly | src/extensions/layout/mod.rs:127-131 | `k` ExpandMain messages give `min(ratio + k * step, 1)` |
| Layouts.ShrinkRepeatedly | src/extensions/layout/mod.rs:132-136 | `k` ShrinkMain messages give `max(ratio - k * step, 0)` |
| Layouts.OthersIgnored | src/extensions/layout/mod.rs:126-139 | any number of messages other than ExpandMain and ShrinkMain leave the ratio as it was |
| Layouts.NegativeStepEscapes | src/extensions/layout/mod.rs:128-131 | with a negative step, ExpandMain can take the ratio out of [0, 1], because only the upper bound is checked |
| FibonacciLayout.Subdivision | src/extensions/layout/mod.rs:92-120 | the evolving `(r1, r2)` pair: a side-by-side fractional split of `r` first, then the previous remainder split by height after an even index and by width after an odd one; no contract of its own, its properties are the lemmas `SubdivisionInside` and `SubdivisionJoins` |
| FibonacciLayout.SubdivisionInside | src/extensions/layout/mod.rs:92-120 | at every step both regions lie inside `r` and do not overlap |
| FibonacciLayout.Joined | src/extensions/layout/mod.rs:98-104 | the absorb step: the joined region starts at the primary region's corner and contains it; when the remainder lies right of the primary with the same height (even index) or below it with the same width (odd index), the joined region is exactly the region the two form |
| FibonacciLayout.AtCutoff | src/extensions/layout/mod.rs:97 | `at_cutoff`: true exactly when the client is the last one or its primary region is at most `cutoff` wide or high; no contract of its own, `Stop` and `PositionsStopAtFirstCutoff` state where it ends the walk |
| FibonacciLayout.SubdivisionJoins | src/extensions/layout/mod.rs:96-120 | each (primary, remainder) pair lies side by side at an even index and stacked at an odd one, and forms the region it was split from; so absorbing by width at even indices and by height at odd ones restores that region |
| FibonacciLayout.Stop | src/extensions/layout/mod.rs:97 | the first index from `i` on at which the walk stops: it is the last index, or the primary region there is at most `cutoff` wide or high, and no earlier index qualifies |
| FibonacciLayout.Positions | src/extensions/layout/mod.rs:89-124 | there are no more placements than clients, and their ids are the stack's, in order, from the first |
| FibonacciLayout.PositionsStopAtFirstCutoff | src/extensions/layout/mod.rs:90-110 | there are no placements exactly when the stack is empty; otherwise the placements end at the first client at the cutoff, and every earlier client keeps its primary region |
| FibonacciLayout.SubdivisionTiles | src/extensions/layout/mod.rs:92-120 | after `k` steps, the primary regions so far plus the joined region of client `k` tile `r` |
| FibonacciLayout.PositionsTile | src/extensions/layout/mod.rs:92-120 | for a non-empty stack, the placements lie in `r`, do not overlap, and cover every pixel of `r` |
| FibonacciLayout.PositionsDistinct | src/extensions/layout/mod.rs:96-106 | distinct stack ids give distinct placement ids |
| FibonacciLayout.ThreeClientsByDefault | src/extensions/layout/mod.rs:46-54 | the default parameters on three clients in a 100 by 100 region give the left half, then the top and bottom quarters on the right |
| FibonacciLayout.Fibonacci.Default | src/extensions/layout/mod.rs:46-54 | cutoff 40, ratio 0.5, step 0.1, which satisfy the layout's invariant |
| FibonacciLayout.Fibonacci.constructor | src/extensions/layout/mod.rs:59-65 | takes the three parameters as given |
| FibonacciLayout.Fibonacci.Name | src/extensions/layout/mod.rs:81-83 | a non-empty label of at most four characters |
| FibonacciLayout.Fibonacci.BoxedClone | src/extensions/layout/mod.rs:85-87 | a fresh object with the same parameters |
| FibonacciLayout.Fibonacci.Layout | src/extensions/layout/mod.rs:89-124 | never returns a replacement; the loop computes exactly `Positions`, so every property proved about `Positions` holds for its result |
| FibonacciLayout.Fibonacci.HandleMessage | src/extensions/layout/mod.rs:126-140 | never returns a replacement; the new ratio is `Adjust` of the old one; cutoff and step are unchanged; a valid layout stays valid |
| TatamiLayout.ClientCount | src/extensions/layout/mod.rs:224 | the number of clients placed: the stack length capped at 6 |
| TatamiLayout.MainWidth | src/extensions/layout/mod.rs:219 | 0 for a negative product, otherwise the largest whole number not above `w * ratio` |
| TatamiLayout.MainFits | src/extensions/layout/mod.rs:218-221 | the condition under which the `expect("valid split")` at :220 cannot fail: with two or more clients the main width is at most `r.w`; no contract of its own, `MainFitsUpToOne` and `MainTooWide` bound it from both sides |
| TatamiLayout.SplitMain | src/extensions/layout/mod.rs:218-221 | the `split_main` closure: the main region is `MainWidth` pixels wide, and it and the side region lie side by side and form `r` |
| TatamiLayout.MainFitsUpToOne | src/extensions/layout/mod.rs:218-221 | a ratio of at most 1 makes the main split succeed for any number of clients |
| TatamiLayout.MainTooWide | src/extensions/layout/mod.rs:218-221 | a ratio above 1 whose excess is worth a pixel makes the main split fail |
| TatamiLayout.Template | src/extensions/layout/mod.rs:225-273 | exactly `n` regions, built without any subtraction going below zero |
| TatamiLayout.Positions | src/extensions/layout/mod.rs:216-226 | exactly `min(len, 6)` placements, for the first `min(len, 6)` ids in stack order |
| TatamiLayout.RegionsAreTemplate | src/extensions/layout/mod.rs:217 | the placements carry the template's regions in order |
| TatamiLayout.OneClientShape | src/extensions/layout/mod.rs:228 | a single client gets the whole region |
| TatamiLayout.TwoShape | src/extensions/layout/mod.rs:230-233 | the main region on the left and the side region on the right |
| TatamiLayout.ThreeShape | src/extensions/layout/mod.rs:235-239 | the main region, then the top and bottom halves of the side region |
| TatamiLayout.FourShape | src/extensions/layout/mod.rs:241-246 | the main region, the top-left and top-right quarters of the side region, then its bottom half |
| TatamiLayout.FiveShape | src/extensions/layout/mod.rs:248-255 | the main region, the top row of the side region, the two halves of its joined middle rows, and the bottom row with the remainder |
| TatamiLayout.SixShape | src/extensions/layout/mod.rs:257-269 | the six regions in coordinates: the second loses `h` of height, the fourth moves down `h` and loses `2h`, the fifth moves down `h` and loses `h`, and the third and sixth are twice the first column wide and `h` high, the sixth starting where the second ends |
| TatamiLayout.TemplateTiles | src/extensions/layout/mod.rs:225-255 | with one to five clients the regions lie in `r`, do not overlap, and cover `r` |
| TatamiLayout.SixTilesWithGap | src/extensions/layout/mod.rs:257-269 | with six clients the regions plus the strip at the top right (`Gap`) tile `r` |
| TatamiLayout.GapUncovered | src/extensions/layout/mod.rs:257-269 | every pixel of the gap lies in `r` but in none of the six regions |
| TatamiLayout.SixTilesIff | src/extensions/layout/mod.rs:257-269 | six clients tile `r` if and only if the side region's width is a multiple of 3 or `r` is less than 4 pixels high |
| TatamiLayout.SixClientsLeaveGap | src/extensions/layout/mod.rs:257-269 | the default ratio on six clients in a 10 by 8 region leaves pixels (9, 0) and (9, 1) uncovered |
| TatamiLayout.PositionsTile | src/extensions/layout/mod.rs:216-255 | the placements of one to five clients tile `r` |
| TatamiLayout.PositionsMain | src/extensions/layout/mod.rs:218-232 | with two or more clients the first gets the full-height left part of `r`, `MainWidth` pixels wide |
| TatamiLayout.PositionsDistinct | src/extensions/layout/mod.rs:217 | distinct stack ids give distinct placement ids |
| TatamiLayout.TwoClientsByDefault | src/extensions/layout/mod.rs:230-233 | the default ratio on two clients in a 100 by 50 region splits it 60 to 40 |
| TatamiLayout.Tatami.Default | src/extensions/layout/mod.rs:198-205 | ratio 0.6 and step 0.1, which satisfy the layout's invariant |
| TatamiLayout.Tatami.constructor | src/extensions/layout/mod.rs:188-190 | takes both parameters as given |
| TatamiLayout.Tatami.Name | src/extensions/layout/mod.rs:208-210 | a three-character label framed by bars |
| LayoutNames.NamesDiffer | src/extensions/layout/mod.rs:208-210 | the two layouts have different labels |
| TatamiLayout.Tatami.BoxedClone | src/extensions/layout/mod.rs:212-214 | a fresh object with the same parameters |
| TatamiLayout.Tatami.Layout | src/extensions/layout/mod.rs:216-276 | never returns a replacement; the result is exactly `Positions` |
| TatamiLayout.Tatami.HandleMessage | src/extensions/layout/mod.rs:278-292 | never returns a replacement; the new ratio is `Adjust` of the old one; the step is unchanged; a valid layout stays valid |

## Left out

- The `Conditional` combinator (`mod.rs:9-11`): `combinators.rs` is not part of this model.
- The quickcheck test module (`mod.rs:15-16`): it is test code only.
- Trait objects: `boxed`, `boxed_default` and `Box<dyn Layout>` are Rust dynamic dispatch.
  - A replacement layout is an `Option` of the layout's own class.
  - `boxed_clone` is a fresh object with the same fields.
- `Message::downcast_ref`: replaced by the closed `Message` type, with `Other` standing for
  every message that is neither ExpandMain nor ShrinkMain.
- `f32` arithmetic: `ratio` and `ratio_step` are exact reals.
  - Rounding of `ratio +/- ratio_step` is not modelled.
  - Rounding of `w as f32 * ratio` is not modelled. The floor is taken of the exact
    product, so no pixel result here depends on IEEE rounding.
- `u32` width: coordinates and sizes are unbounded naturals.
  - Overflow of `x + w` is not modelled.
  - The upper saturation of the `as u32` cast is not modelled.
  - The subtractions the layouts make are shown not to underflow.
- `Rect`, `Stack` and `Xid`: their internals are not part of this model.
  - The split rules above are the model's own choice, stated by contracts.
  - Focus handling of `Stack` does not affect the layouts. A stack is the sequence of its
    ids in iteration order.
- TatamiLayout.SixTilesIff: six Tatami clients do not generally tile the region. The
  third and sixth regions are twice the first column wide (`mod.rs:265-266`), and under
  the column rule above the last column takes the remainder. So this lemma states exactly
  when coverage holds, and `SixTilesWithGap` says what is left uncovered. It makes no claim
  that six clients always tile.
- FibonacciLayout.Fibonacci.Name and TatamiLayout.Tatami.Name: the contracts state the
  label's shape rather than its exact text.
