# glerminal core: font atlas loading, viewport state and render orchestration

This project models, in Dafny, the core of glerminal, an OpenGL text terminal for
games and tools:

- **Font atlas loading** (`src/font.rs`). A parsed bitmap-font description and a
  decoded RGBA atlas become a `Font`. Loading refuses an atlas that is not RGBA
  (PNG colour type 6, section 11.2.2 of the W3C PNG Specification, Second Edition)
  and a pixel buffer whose length is not `width * height * 4`. It then builds the
  glyph table keyed by the record key truncated to one byte, turns each glyph's
  pixel rectangle into UV bounds, and folds the minimum `yoffset` from the
  sentinel 100 000. `get_character` looks a character up by the low byte of its
  code point.
- **Viewport state** (`src/display.rs`). The window width and height, the target
  aspect ratio and the projection matrix. The invariant is that the matrix is the
  one built from the other three. `refresh` folds the polled window events: a
  close request, the last resize, and the key transitions it forwards.
- **Render orchestration** (`src/terminal.rs`):
  - the frame counter's one-second commit;
  - the choice between the normal and debug shader programs, which fails on a
    headless terminal;
  - `set_debug`, `close` and both build variants of `refresh`;
  - the order of the graphics calls `draw` and `draw_multiple` issue.

The graphics backend is a trace. Every call into it (`clear`, `update_viewport`,
`draw`, `set_debug`) is appended to `Renderer.Gl.calls`, so ordering and counts can
be stated. `create_proj_matrix` is not modelled. A matrix is represented by the
`(width, height, aspect ratio)` it was built from. With this representation two
matrices are equal exactly when they were built from equal arguments. That is a
property of the representation, not of the source's matrix function, and no
contract here depends on it.

Several outcomes that panic in the source are error values here: `NotRgba` and
`Deformed` of `Font.LoadWithDescriptionAndImage`, and the `None` of
`GetProgram` and `GetBackgroundProgram`. The source's `load` returns a plain
`Font`, and its program getters unwrap or panic.

The load routine visits the description's records in an unspecified order, as a
Rust `HashMap` iterates. Its contract (`Font.IsLoadOf`) therefore leaves open
which record survives when two keys share their low byte. It pins everything else
down.

Files: `wrappers.dfy` (Option, Result), `renderer.dfy` (the call trace),
`font.dfy`, `display.dfy`, `terminal.dfy`.

Behaviours of the code worth knowing:

- `draw` on a headless terminal is a no-op, not a failure, and `draw_multiple`
  still issues its one clear there. Only `get_program` and
  `get_background_program` fail on a headless terminal.
- UV bounds are not checked to lie in [0, 1]. They are ordered only for glyphs of
  non-negative size.
- Keys that collide on their low byte keep one entry, not one entry per
  character.
- `set_aspect_ratio` re-issues `update_viewport` even though the window size did
  not change.
- The frame counter commits only when strictly more than one second has passed.
  The committed count includes the frame that crosses the boundary: 30 updates
  within the first second and one after it report 31.

## Model

| member | source | states |
|---|---|---|
| `Font.LoadWithDescriptionAndImage` | src/font.rs:111-167 | Fails with `NotRgba` for any colour type but RGBA. Fails with `Deformed` when the buffer length is not `width*height*4`. Succeeds exactly otherwise, with name, buffer, dimensions, line height and size copied, the min-`yoffset` fold and the byte-keyed glyph table (`IsLoadOf`) |
| `Font.Load` | src/font.rs:77-91 | Delegates to the shared routine: same success condition and the same `IsLoadOf` result for the file's description and its atlas |
| `Font.LoadRaw` | src/font.rs:101-109 | Delegates to the shared routine with the atlas path fixed to "image.png" |
| `Font.GetCharacter` | src/font.rs:174-181 | `Ok(entry)` exactly when the character's low byte is a table key, with the stored entry; otherwise an error naming that byte |
| `Font.ByteKeysBound` | src/font.rs:132-142 | Truncating keys to a byte never yields more keys than there were, and yields exactly as many when no two keys collide |
| `Font.TableNoLargerThanRecords` | src/font.rs:128-155 | A loaded font has at most one glyph per record, and exactly one per record without collisions |
| `Font.MinOffsetBoundsGlyphs` | src/font.rs:131-139 | The stored minimum offset is at most 100 000 and at most every stored glyph's `y_off` |
| `Font.NoRecordsKeepsSentinel` | src/font.rs:127-166 | With no records the table is empty and the minimum offset stays 100 000 |
| `Font.GlyphUvOrdered` | src/font.rs:129-136 | `x1 <= x2` when the glyph width is non-negative, and `y1 <= y2` when its height is |
| `Font.StoredGlyphsFromRecords` | src/font.rs:141-154 | Every stored entry copies `id`, `width`, `height`, `xoffset` and `yoffset` from a record whose key has that low byte, and its UV bounds are ordered |
| `Font.LookupAfterLoad` | src/font.rs:174-181 | After a load, a lookup fails exactly when no record key has the character's low byte. It returns the record's glyph when exactly one key has it |
| `Font.LoadDeterminedWithoutCollisions` | src/font.rs:132-155 | Without key collisions, any two results of loading the same inputs are equal |
| `Font.LoadEqualsLoadRaw` | src/tests/font.rs:20-22 | Loading through `load` and through `load_raw` gives equal fonts when no keys collide |
| `Font.CollisionSurvivorUnspecified` | src/font.rs:141-142 | With keys 97 and 353 (the same low byte), tables holding either record's glyph are both admissible results, and they differ |
| `Display.Display.constructor` | src/display.rs:29-71 | The requested dimensions, aspect ratio `width/height`, the matching projection, empty input, and no viewport call |
| `Display.Display.GetAspectRatio` | src/display.rs:127-129 | The returned ratio is the one the projection matrix is built for, whenever the invariant holds |
| `Display.Display.UpdateView` | src/display.rs:143-149 | Restores the projection invariant and issues one `update_viewport(width, height)` |
| `Display.Display.SetAspectRatio` | src/display.rs:127-134 | `GetAspectRatio()` returns the new ratio. The projection is rebuilt for it and the dimensions are kept. One `update_viewport` is still issued |
| `Display.Display.Refresh` | src/display.rs:74-113 | Returns false exactly when a `Closed` event was polled. The input holds the forwarded key transitions. Only the last resize is applied, with one viewport call. Without a resize the dimensions, projection and trace are unchanged |
| `Display.LastResizeIsLast` | src/display.rs:91-110 | The applied resize is an event of the batch with no resize after it. There is none exactly when the batch has no resize |
| `Display.KeyUpdatesAppend` | src/display.rs:94-99 | Forwarding preserves event order across consecutive batches |
| `Display.KeyUpdatesFromKeyboardEvents` | src/display.rs:94-99 | A transition is forwarded exactly when a keyboard event carries that key code, with `pressed` equal to whether its state is `Pressed`. Events without a key code forward nothing |
| `Terminal.UpdatesWithinSecondCommitNothing` | src/terminal.rs:391-399 | Updates no more than one second after the last check (exactly one second included) only count frames. `fps` and the check time stay |
| `Terminal.FirstCommit` | src/terminal.rs:383-403 | A new counter reports 0 throughout its first second. The first update more than a second later commits all frames so far, itself included, and resets the tally |
| `Terminal.FrameCounter.constructor` | src/terminal.rs:383-389 | A new counter has no frames, rate 0 and its check time at creation |
| `Terminal.FrameCounter.Update` | src/terminal.rs:391-399 | The new state is `Tick` of the old one: always one more frame, and a commit only when strictly more than a second has elapsed |
| `Terminal.FrameCounter.GetFps` | src/terminal.rs:401-403 | The count committed at the last check, 0 before the first commit |
| `Terminal.DrawAllNeverClears` | src/terminal.rs:282-309 | The loop of `draw_multiple` issues no clear, so its only clear is the first call |
| `Terminal.DrawAllDrawsReadyBuffers` | src/terminal.rs:284-308 | The draw calls are, per ready buffer in list order, background mesh with the background program, then foreground mesh with the main program. Unready buffers draw nothing |
| `Terminal.DrawAllRatio` | src/terminal.rs:290-294 | With the buffer-ratio policy, the last ready buffer's ratio is left in force. Without it, the ratio never changes and no viewport call is issued |
| `Terminal.Terminal.constructor` | src/terminal.rs:158-203 | A headless terminal has no display and programs 0. Otherwise it has a display of the requested size with aspect ratio `width/height`, empty input and the compiled programs. Debug is off and the terminal is running |
| `Terminal.Terminal.GetProgram` | src/terminal.rs:346-355 | Fails exactly on a headless terminal. Otherwise the debug program in debug mode, else the main program |
| `Terminal.Terminal.GetBackgroundProgram` | src/terminal.rs:357-366 | Fails exactly on a headless terminal. Otherwise the debug program in debug mode, else the background program |
| `Terminal.Terminal.GetFps` | src/terminal.rs:341-344 | The frame counter's committed rate |
| `Terminal.Terminal.SetDebug` | src/terminal.rs:206-211 | Headless: debug and the trace are unchanged. Otherwise debug becomes the argument and one `set_debug` call is issued |
| `Terminal.Terminal.Close` | src/terminal.rs:321-323 | `running` becomes false and nothing else changes, so a second call changes nothing |
| `Terminal.Terminal.Refresh` | src/terminal.rs:232-243 | The frame counter ticks. Headless: returns `running`. Otherwise returns "no close polled and running", with the display refreshed as `Display.Refresh` states. A closed terminal always returns false |
| `Terminal.Terminal.RefreshWithDebugToggle` | src/terminal.rs:214-229 | As `Refresh`, and a press of F3 recorded since the previous refresh flips debug before the events are polled. In that case a `set_debug` call precedes the viewport call |
| `Terminal.Terminal.Draw` | src/terminal.rs:253-277 | No call at all without a display or without both meshes. Otherwise, in order: the viewport update if the buffer's ratio is adopted, one clear, the background draw, the foreground draw, both through the projection for the ratio in force |
| `Terminal.Terminal.DrawMultiple` | src/terminal.rs:282-309 | Exactly one clear first, headless or not and for an empty list. Then the calls of `DrawAll` for the buffers. The display's ratio is the one `DrawAll` leaves |

## Left out

- PNG decoding and `.sfl` parsing are external crates. Their outputs (the image header, the pixel buffer and the parsed description) are inputs, and the image header's width and height are positive, as a PNG header requires.
- Filesystem access in `Font::load` (existence check, opening the atlas) and the embedded font bytes in `TerminalBuilder::new` are not modelled. A missing file, or a parser or decoder failure, panics in the source and has no counterpart here.
- f32 arithmetic is not modelled:
  - UV bounds are exact reals, so the rounding of the division is not captured;
  - aspect ratios are compared as reals;
  - the committed frame count is a natural number.
- u32 widths are not modelled. Dimensions are unbounded naturals. In particular the source's `width * height * 4` could overflow `u32` for very large atlases; the model computes it exactly.
- The elapsed-time argument that `draw` and `draw_multiple` compute from the clock is not recorded in the draw calls.
- The renderer module is not part of this model. `create_proj_matrix` is represented symbolically, and `create_program` results are constructor parameters.
- The input-state type is not part of this model. It is reduced to the key transitions recorded since its just-lists were last cleared. `was_just_pressed(F3)` is read as "a press of F3 is among them".
- Window and GL plumbing are not modelled: context creation, the GL version check, `swap_buffers`, `set_title`, `show`, `flush`, `get_current_input`, and the test-only `update_virtual_keycode`.
- `TerminalBuilder` and its setters are not modelled. They only store the arguments `Terminal.Terminal.constructor` takes.
- The concrete checks of `src/tests/font.rs` (name, sizes, glyph count, the glyph for 'a') depend on binary font assets that are not part of this model.
- `Cell` and `RefCell` interior mutability is modelled as ordinary mutable fields.
- Display.Display.constructor: requires a non-zero height, because the source's f32 division `width / height` would give an infinite or undefined ratio.
- Terminal.Terminal.constructor: requires a non-zero height for a windowed terminal, because the display it creates divides `width / height` in f32 and would get an infinite or undefined ratio.
- Terminal.Terminal.Refresh: requires the clock not to run backwards since the frame counter's last check, because the frame counter update it makes unwraps the elapsed duration and panics otherwise.
- Terminal.Terminal.RefreshWithDebugToggle: requires the clock not to run backwards since the frame counter's last check, for the same reason as `Refresh`.
- Terminal.FrameCounter.Update: requires the clock not to run backwards, because the source unwraps the elapsed duration and panics otherwise.
- Font.LoadEqualsLoadRaw: proved only when no two record keys share their low byte. With a collision, each load keeps the record its own hash map visits last, so the two fonts may differ.
