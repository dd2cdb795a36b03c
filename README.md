# Penumbra background and text effects, modelled in Dafny

This project models the small pieces of deterministic logic inside the
penumbra site. It proves properties of each piece:

- **Shader harness** (`src/scripts/shader.ts`, module `Shader`).
  - `buildFrag` wraps a ShaderToy `mainImage` body into a fragment shader. It declares `iMouse`, `iChannel0` and `iTime` only when asked.
  - The module's state between frames is modelled as the class `Shader.Pipeline`. It holds:
    - the canvas size;
    - the two render targets `rtA` and `rtB`;
    - the three uniform records;
    - the raw and smoothed mouse positions;
    - a log of the draw calls made.
  - The methods are the start-up code, `resizeRendererToDisplaySize`, `makeRenderTarget`, `dispose`, `updateResUniforms`, `onResize`, the pointer handler and `render`.
  - The class invariant `Valid()` is the wiring:
    - pass B's `iChannel0` holds rtA's texture;
    - the image pass's `iChannel0` holds rtB's texture;
    - both targets have the canvas size;
    - neither live texture has been released.
- **Dot-matrix serialiser** (`etc/pixels-to-dotmatrix.py`, module `DotMatrix`).
  - `PixelsToDotMatrix` is the script's nested loop over columns and rows. It is proved to build exactly the document `Svg`.
  - The lemmas about `Svg` cover:
    - which pixels get a circle;
    - their column-major order and how many there are;
    - how the text reads back line by line;
    - how the header and each `<circle>` read back attribute by attribute.
- **Typing reveal** (`src/scripts/text-anim.ts`, module `TextAnim`).
  - The interval callback of `animateText` is the method `TypingReveal.Tick`, on a class holding `frame`, the displayed text and whether the interval was cleared.
  - Text is a sequence of UTF-16 code units (`JsString`), because `length` and `substring` count code units. A character outside the Basic Multilingual Plane takes two of them, so it takes twice as many ticks to reveal.
  - `Step` describes one tick and `Run` describes a sequence of ticks. Lemmas about `Run` say what is shown on every tick and exactly when the animation stops.
- **Random helpers** (`src/scripts/util.ts`, module `Util`).
  - `rng` and `pickRandom` take the value `Math.random()` would return as a parameter `draw` in `[0, 1)`.

Two support modules provide what the language runtimes provide:

- `Outcomes` holds the `Option` and `Result` types.
- `Strings` holds:
  - joining lines with a separator and its inverse, splitting;
  - ECMAScript's `String.prototype.trim`;
  - Python's decimal rendering of integers, with a parser that reads it back.

Outside `TextAnim`, text is a Dafny `string`, a sequence of Unicode scalar values, not UTF-16 code units. This makes no difference to `trim` and `join`: every ECMAScript whitespace character and the line break are single code units in the Basic Multilingual Plane. A shader source containing a lone surrogate cannot be written as a `string`, so such sources are not modelled.

This version of `src/scripts/shader.ts` has none of the following, so the model has none of them either:

- a frame-rate-driven resolution governor;
- a GPU capability probe;
- a scroll-anchor table with smoothing;
- a time basis that is reset when the tab loses focus.

In this version:

- `iTime` is the frame timestamp times 0.001;
- `iScrollProgress` is the raw quotient of scroll offset and scrollable height.

The serialiser's help text says a dot is made when the channel sum is "higher than" the threshold. The code skips a pixel only when its sum is below the threshold, so a sum equal to the threshold gets a dot. The model follows the code (`DotMatrix.DotsAreLitPixels`).

## Model

| member | source | states |
|---|---|---|
| Shader.BuildFrag | src/scripts/shader.ts:25-42 | `buildFrag(opts)`: the lines of `FragLines` joined with line breaks; its layout as text is stated by `Shader.BuildFragText` |
| Shader.FragLines | src/scripts/shader.ts:31-39 | the `lines` array before the join: the three prelude lines, the optional declarations, the trimmed source and the `main` wrapper, at least five lines in all |
| Shader.Declarations | src/scripts/shader.ts:34-36 | the optional uniform declarations, each present exactly when its flag is set (proved in `Shader.DeclarationsInOrder`) |
| Shader.PassOptions | src/scripts/shader.ts:62-75 | the options each material passes to `buildFrag`: A mouse and time, B channel 0 and time, Image channel 0 |
| Shader.Lerp | src/scripts/shader.ts:152-153 | three.js `lerp(x, y, t) = (1 - t)·x + t·y`; its effect with `MOUSE_REACTIVITY` is stated by `Shader.LerpClosesGap` |
| Shader.Pipeline.Input | src/scripts/shader.ts:51-60 | the texture a pass samples: none for A, the `iChannel0` value of its uniform record for B and Image |
| Shader.FragLinesLayout | src/scripts/shader.ts:31-41 | the shader's first three lines are `#include <common>`, `precision highp float;`, `uniform vec3 iResolution;`; its last two are the trimmed source and the `main` wrapper; the lines between are the optional declarations |
| Shader.DeclarationBlockInOrder | src/scripts/shader.ts:34-36 | between prelude and body, `iMouse` is declared iff `needsMouse`, `iChannel0` iff `needsChannel0`, `iTime` iff `needsTime`; nothing else is declared there, and the declarations come in the order mouse, channel 0, time, each at most once |
| Shader.DeclarationsInOrder | src/scripts/shader.ts:34-36 | the same facts for the optional declarations before they are placed between prelude and body |
| Shader.BuildFragText | src/scripts/shader.ts:31-41 | as text, the joined shader starts with the three prelude lines, each followed by a line break, and ends with the trimmed source, a line break and the `main` wrapper, without overlap |
| Shader.PassDeclarations | src/scripts/shader.ts:62-75 | the A shader declares mouse and time, the B shader channel 0 and time, the Image shader channel 0 only; each declares `iResolution`; a pass declares `iChannel0` exactly when its uniform record carries a texture |
| Shader.LerpClosesGap | src/scripts/shader.ts:152-153 | each frame the smoothed mouse coordinate moves 15% of the way to the pointer: the remaining gap is 0.85 of the previous one and the new value lies between the old value and the pointer |
| Shader.FrameDraws | src/scripts/shader.ts:157-167 | the three draws of one frame: A into rtA's texture, B into rtB's texture reading rtA's, Image to the screen reading rtB's; its chain property is `Shader.FrameIsAChain` |
| Shader.FrameIsAChain | src/scripts/shader.ts:157-167 | a frame's draws are A, B, Image in that order; B reads what A wrote, Image reads what B wrote, only Image draws to the screen, and no pass reads its own target |
| Shader.Pipeline.constructor | src/scripts/shader.ts:44-88 | start-up: zeroed uniforms (the mouse vector's fourth component is 1), rtA and rtB of the canvas size on the first two textures, B's and Image's channels wired to them, invariant established |
| Shader.Pipeline.OnPointerMove | src/scripts/shader.ts:90-94 | the pointer handler records the pointer position as the raw mouse position and changes nothing else |
| Shader.Pipeline.ResizeRendererToDisplaySize | src/scripts/shader.ts:96-107 | returns true exactly when the canvas width or height differs from the display size; afterwards the canvas has the display size, and nothing else changes |
| Shader.Pipeline.MakeRenderTarget | src/scripts/shader.ts:109-121 | a new target has the canvas's current size and the next unused texture handle; the handle counter advances by one |
| Shader.Pipeline.Dispose | src/scripts/shader.ts:133-134 | disposing a target adds its texture to the released ones and changes nothing else |
| Shader.Pipeline.UpdateResUniforms | src/scripts/shader.ts:123-129 | all three `iResolution` values become `(canvas.width, canvas.height, 1)`; channels and times are untouched |
| Shader.Pipeline.OnResize | src/scripts/shader.ts:131-141 | keeps the wiring invariant. When no resize is needed nothing changes. Otherwise both old textures are released, both targets are re-made on fresh textures of the new size, and every `iResolution` is the new size |
| Shader.Pipeline.DrawPass | src/scripts/shader.ts:158-167 | one `setRenderTarget` plus `render` appends one draw of the pass into the target, reading the texture its `iChannel0` holds |
| Shader.Pipeline.Render | src/scripts/shader.ts:143-170 | after one frame: the canvas and all resolutions match the display; A's and B's `iTime` are the same value; the scroll progress and the smoothed mouse are set; the wiring invariant holds; without a resize the targets and released textures are as before, and with one both old textures are released and both targets are re-made on the next two fresh textures; the frame's draws are A into rtA, B into rtB reading rtA, Image to the screen reading rtB |
| Strings.Join | src/scripts/shader.ts:41 | `lines.join(sep)`: the lines with one separator between neighbours; inverse of `Strings.Split` by `Strings.SplitJoin` and `Strings.JoinSplit` |
| Strings.Trim | src/scripts/shader.ts:38 | the trimmed text neither starts nor ends with ECMAScript whitespace |
| Strings.TrimCutsOnlyWhitespace | src/scripts/shader.ts:38 | the trimmed text is a contiguous piece of the original, and everything cut away on either side is whitespace |
| Strings.TrimIdempotent | src/scripts/shader.ts:38 | trimming a trimmed text changes nothing |
| Strings.SplitJoin | src/scripts/shader.ts:41 | lines joined with a separator they do not contain split back into the same lines |
| Strings.JoinSplit | src/scripts/shader.ts:41 | splitting at a separator and joining again gives the text back |
| Strings.ShowInt | etc/pixels-to-dotmatrix.py:21 | a rendered integer is non-empty, made of digits with an optional leading minus sign, and the sign appears exactly for negative numbers; there are no leading zeros (the first digit is `0` only for `0` itself), as in Python's `str` |
| Strings.ParseShowInt | etc/pixels-to-dotmatrix.py:21-33 | reading a rendered integer back gives the same integer |
| DotMatrix.Image.GetPixel | etc/pixels-to-dotmatrix.py:26 | `img.getpixel((x, y))`: the channel tuple in row `y`, column `x` |
| DotMatrix.ColumnDots | etc/pixels-to-dotmatrix.py:25-30 | the pixels of column `x` above row `y` that the inner loop keeps, top to bottom; members stated by `DotMatrix.ColumnDotsMembers` |
| DotMatrix.DotsBefore | etc/pixels-to-dotmatrix.py:24-30 | the pixels the loops keep in the first `x` columns, column after column; members stated by `DotMatrix.DotsBeforeMembers` |
| DotMatrix.ColumnDotsMembers | etc/pixels-to-dotmatrix.py:25-30 | a pixel is kept in column `x` above row `y` exactly when it is in that column, above that row, and its channel sum reaches the threshold |
| DotMatrix.DotsBeforeMembers | etc/pixels-to-dotmatrix.py:24-30 | a pixel is kept in the first `x` columns exactly when it lies there, inside the image, and its channel sum reaches the threshold |
| DotMatrix.Dots | etc/pixels-to-dotmatrix.py:24-30 | every pixel the loops keep, in visiting order; stated by `DotMatrix.DotsAreLitPixels` and `DotMatrix.DotsInColumnMajorOrder` |
| DotMatrix.Circles | etc/pixels-to-dotmatrix.py:32-33 | the appended text for a sequence of kept pixels: a line break and the pixel's `<circle>` element per pixel, in order |
| DotMatrix.Svg | etc/pixels-to-dotmatrix.py:18-36 | the whole document: the header for a `2r·W × 2r·H` canvas, a line break and a circle per lit pixel in column-major order, then a line break and `</svg>` |
| DotMatrix.Header | etc/pixels-to-dotmatrix.py:21 | the opening `<svg>` tag for the given size; read back by `DotMatrix.HeaderAttributes` |
| DotMatrix.CircleTag | etc/pixels-to-dotmatrix.py:33 | the `<circle>` element of one lit pixel; read back by `DotMatrix.CircleAttributes` |
| DotMatrix.ChannelSum | etc/pixels-to-dotmatrix.py:29 | `sum(color)`: the sum of a pixel's channels |
| DotMatrix.Lit | etc/pixels-to-dotmatrix.py:29-30 | a pixel is drawn unless its channel sum is below the threshold |
| DotMatrix.PixelsToDotMatrix | etc/pixels-to-dotmatrix.py:18-36 | the nested loop builds exactly `Svg`: the header for a `2r·W × 2r·H` canvas, a line break and a circle per lit pixel in visiting order, then a line break and `</svg>` |
| DotMatrix.AppendColumn | etc/pixels-to-dotmatrix.py:25-33 | the inner loop over the rows of column `x` appends, to the text so far, a line break and a circle for each lit pixel of that column, top to bottom |
| DotMatrix.DotsAreLitPixels | etc/pixels-to-dotmatrix.py:29-33 | a circle is emitted for pixel `(x, y)` exactly when it lies in the image and its channel sum is at least the threshold |
| DotMatrix.DotsInColumnMajorOrder | etc/pixels-to-dotmatrix.py:24-25 | circles come column by column, top to bottom within a column, with no pixel twice |
| DotMatrix.CircleCountIsLitPixelCount | etc/pixels-to-dotmatrix.py:24-33 | the number of circles equals the number of pixels whose channel sum reaches the threshold |
| DotMatrix.CircleCountAtMostPixels | etc/pixels-to-dotmatrix.py:24-33 | there are at most `width * height` circles |
| DotMatrix.SvgLines | etc/pixels-to-dotmatrix.py:21-36 | split at line breaks, the document is the header line, then one line per circle in emission order, then `</svg>`; so each circle is preceded by exactly one line break and the document ends with a line break and `</svg>` |
| DotMatrix.CircleAttributes | etc/pixels-to-dotmatrix.py:33 | read between its quotes, a circle has `cx = (x+1)·2r`, `cy = (y+1)·2r`, `r = radius` and `fill="white"` |
| DotMatrix.HeaderAttributes | etc/pixels-to-dotmatrix.py:18-21 | read between its quotes, all eleven fields are fixed: `width` and `height` are the given numbers, the viewBox is `0 0` followed by the same two numbers, then `fill="none"`, `xmlns="http://www.w3.org/2000/svg"` and the closing `>` |
| DotMatrix.HeaderIsOneLine | etc/pixels-to-dotmatrix.py:21 | the header holds no line break |
| DotMatrix.CircleTagIsOneLine | etc/pixels-to-dotmatrix.py:33 | a circle element holds no line break |
| TextAnim.Index | src/scripts/text-anim.ts:8 | `Math.floor(frame / transitionLength)`: the one `idx` with `idx·T <= frame < (idx+1)·T` |
| TextAnim.Prefix | src/scripts/text-anim.ts:15 | `substring(0, n)`: the first `n` code units, or the whole text when `n` exceeds its length |
| TextAnim.Start | src/scripts/text-anim.ts:4-5 | before the first tick: frame 0, the element showing its own text, the interval running |
| TextAnim.Run | src/scripts/text-anim.ts:7-17 | the state after the interval has fired once per drawn code unit, where a firing after `clearInterval` (line 11) changes nothing; stated by `TextAnim.RunningTicks`, `TextAnim.StopsAfterLastCharacter` and `TextAnim.StopsExactlyThen` |
| TextAnim.Step | src/scripts/text-anim.ts:7-17 | one firing of the callback on a state: stop and restore the text when `idx` reaches the length, otherwise the prefix plus the drawn code unit and the next frame; `TextAnim.TypingReveal.Tick` is proved to follow it |
| TextAnim.ScrambleChar | src/scripts/text-anim.ts:15 | the scramble code unit lies between 0x21 and 0x7E |
| TextAnim.TypingReveal.constructor | src/scripts/text-anim.ts:3-5 | the reveal starts at frame 0 showing the element's own text, with the interval running |
| TextAnim.TypingReveal.Tick | src/scripts/text-anim.ts:7-17 | one tick: with `idx = frame / transitionLength`, stops exactly when `idx` is the text's length, restoring the full text without advancing the frame; otherwise shows the first `idx` code units plus one code unit in 0x21..0x7E and advances the frame by one |
| TextAnim.IndexRisesByAtMostOne | src/scripts/text-anim.ts:8-16 | from one frame to the next, the code-unit index stays or rises by one |
| TextAnim.RunningTicks | src/scripts/text-anim.ts:8-16 | during the first `length * transitionLength` ticks the interval keeps running, the frame counts the ticks, and the text is the first `idx` code units followed by the code unit drawn on that tick, `idx + 1` code units in all |
| TextAnim.StopsAfterLastCharacter | src/scripts/text-anim.ts:8-13 | from tick `length * transitionLength + 1` on, the interval is cleared, the element shows its original text and the frame stays at `length * transitionLength` |
| TextAnim.StopsExactlyThen | src/scripts/text-anim.ts:8-13 | the interval is cleared exactly after more than `length * transitionLength` ticks, `length` counting UTF-16 code units; for an empty text that is the first tick |
| Util.Rng | src/scripts/util.ts:4-6 | `rng(min, max)` lies in `[min, max]` when `min <= max`, is `min` when they are equal, and lies in `[max + 1, min]` when `min > max` |
| Util.RngPreimage | src/scripts/util.ts:4-6 | each value `k` in `[min, max]` comes from exactly the draws in `[(k-min)/n, (k-min+1)/n)` with `n = max-min+1`, so all values are equally likely under a uniform draw |
| Util.RngReachesEveryValue | src/scripts/util.ts:4-6 | every value in `[min, max]` is produced by some draw |
| Util.PickRandom | src/scripts/util.ts:11-16 | fails with "Attempted to pick a random element from an empty array." exactly when the array is empty, and otherwise returns an element of the array |
| Util.PickRandomReachesEveryElement | src/scripts/util.ts:15 | every element of a non-empty array can be picked |

## Left out

- three.js and WebGL are not modelled (src/scripts/shader.ts:10-19, 62-79, 111-119). This covers the renderer, camera, quad, scenes, materials, render-target options and the GPU work of `render`. A pass is an identifier, a texture is a counter-issued handle, and a draw is an entry in a log.
- The GLSL sources of the three passes (src/scripts/shader.ts:4-6) are not modelled. The shader body is a `source` parameter.
- Floating-point rounding is not modelled. Mouse smoothing, the 0.001 time factor and all uniform values are exact reals.
- The pointer-coordinate transform (src/scripts/shader.ts:91-93) is not modelled. `Shader.Pipeline.OnPointerMove` receives the position already in drawing-buffer coordinates.
- `devicePixelRatio` scaling (src/scripts/shader.ts:98-99) is not modelled. The display size is passed in as the floored integer.
- `renderer.setSize` is modelled as setting the canvas to the given size, because the renderer's pixel ratio stays at its default of 1.
- The scroll-progress quotient (src/scripts/shader.ts:151) is passed to `Render` as `scrollProgress`, not computed from the page.
- `requestAnimationFrame` rescheduling (src/scripts/shader.ts:169-172) is not modelled. One call of `Shader.Pipeline.Render` is one frame.
- `setInterval` and `clearInterval` timing (src/scripts/text-anim.ts:7, 11) are not modelled. One call of `TextAnim.TypingReveal.Tick` is one firing, and `frameLength` only sets the period.
- TextAnim.TypingReveal.Tick: requires that the interval is still running, because a cleared interval fires no more callbacks.
- TextAnim.TypingReveal.constructor: requires a positive integer `transitionLength`. With a fractional or zero value, `Math.floor(frame / transitionLength)` can skip past the text length or divide by zero; this floating-point behaviour is not modelled.
- `Math.random` is not called. Its draw is the parameter `draw`, with `0 <= draw < 1`.
- Util.Rng: takes integer bounds only. Calls with non-integer `min` or `max` are not modelled.
- Util.PickRandom: the property that `pickRandom` does not modify its array holds by construction, because a Dafny sequence is a value.
- PIL image loading, argparse, writing the output file and the final message (etc/pixels-to-dotmatrix.py:1-16, 38-39) are not modelled. The image is an `Image` value: width, height and rows of pixels. The document is returned as a string.
- The `assert type(color) is tuple` (etc/pixels-to-dotmatrix.py:27) is not modelled. A pixel is always a sequence of integer channels, so single-band images whose pixels are plain integers are not modelled.
- astro.config.ts is not modelled because it is static build configuration.
