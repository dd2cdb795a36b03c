/**
 * The three-pass shader background of src/scripts/shader.ts.
 *
 * `BuildFrag` is the small code generator that wraps a ShaderToy
 * `mainImage` body into a fragment shader. `Pipeline` holds the state the
 * module keeps between frames: the canvas size, the two render targets, the
 * three uniform records, the mouse positions, and a log of the draw calls
 * the renderer is asked to make. GPU objects are handles: a texture is a
 * number handed out by a counter, and disposing a target records its
 * texture as released.
 */
module Shader {
  import opened Outcomes
  import opened Strings

  // ---------------------------------------------------------------------
  // buildFrag
  // ---------------------------------------------------------------------

  const Include := "#include <common>"
  const Precision := "precision highp float;"
  const ResolutionDecl := "uniform vec3 iResolution;"
  const MouseDecl := "uniform vec4 iMouse;"
  const Channel0Decl := "uniform sampler2D iChannel0;"
  const TimeDecl := "uniform float iTime;"
  const MainLine := "void main() { mainImage(gl_FragColor, gl_FragCoord.xy); }"

  /** The options object of `buildFrag`; an absent flag is `false`. */
  datatype FragOptions = FragOptions(needsMouse: bool, needsChannel0: bool, needsTime: bool, source: string)

  /** The optional uniform declarations, each present when its flag is set. */
  function Declarations(opts: FragOptions): seq<string>
  {
    (if opts.needsMouse then [MouseDecl] else [])
    + (if opts.needsChannel0 then [Channel0Decl] else [])
    + (if opts.needsTime then [TimeDecl] else [])
  }

  /** The `lines` array of `buildFrag` just before it is joined. */
  function FragLines(opts: FragOptions): (lines: seq<string>)
    ensures |lines| >= 5
  {
    [Include, Precision, ResolutionDecl] + Declarations(opts) + [Trim(opts.source), MainLine]
  }

  /** `buildFrag(opts)`: the lines joined with line breaks. */
  function BuildFrag(opts: FragOptions): string
  {
    Join(FragLines(opts), '\n')
  }

  /** The lines between the prelude and the shader body. */
  function DeclarationBlock(opts: FragOptions): seq<string>
  {
    var lines := FragLines(opts);
    lines[3..|lines| - 2]
  }

  /** Where a line may sit among the optional declarations: mouse, then channel 0, then time. */
  function DeclarationRank(line: string): nat
  {
    if line == MouseDecl then 0
    else if line == Channel0Decl then 1
    else if line == TimeDecl then 2
    else 3
  }

  /**
   * The generated shader starts with the three prelude lines and ends with
   * the trimmed body and the `main` wrapper; what lies between is the block
   * of optional declarations.
   */
  lemma FragLinesLayout(opts: FragOptions)
    ensures var lines := FragLines(opts);
      lines[..3] == [Include, Precision, ResolutionDecl]
      && lines[|lines| - 2] == Trim(opts.source) && lines[|lines| - 1] == MainLine
      && DeclarationBlock(opts) == Declarations(opts)
  {
  }

  /**
   * Between the prelude and the body, `iMouse`, `iChannel0` and `iTime` are
   * each declared exactly when asked for, in that order, and nothing else
   * is declared there.
   */
  lemma DeclarationBlockInOrder(opts: FragOptions)
    ensures var block := DeclarationBlock(opts);
      (MouseDecl in block <==> opts.needsMouse)
      && (Channel0Decl in block <==> opts.needsChannel0)
      && (TimeDecl in block <==> opts.needsTime)
      && (forall i :: 0 <= i < |block| ==> DeclarationRank(block[i]) < 3)
      && (forall i, j :: 0 <= i < j < |block| ==> DeclarationRank(block[i]) < DeclarationRank(block[j]))
  {
    FragLinesLayout(opts);
    DeclarationsInOrder(opts);
  }

  /** The optional declarations, in rank order. */
  lemma DeclarationsInOrder(opts: FragOptions)
    ensures var block := Declarations(opts);
      (MouseDecl in block <==> opts.needsMouse)
      && (Channel0Decl in block <==> opts.needsChannel0)
      && (TimeDecl in block <==> opts.needsTime)
      && (forall i :: 0 <= i < |block| ==> DeclarationRank(block[i]) < 3)
      && (forall i, j :: 0 <= i < j < |block| ==> DeclarationRank(block[i]) < DeclarationRank(block[j]))
  {
    DeclarationRanks();
    var block := Declarations(opts);
    match (opts.needsMouse, opts.needsChannel0, opts.needsTime)
    case (true, true, true) => assert block == [MouseDecl, Channel0Decl, TimeDecl];
    case (true, true, false) => assert block == [MouseDecl, Channel0Decl];
    case (true, false, true) => assert block == [MouseDecl, TimeDecl];
    case (true, false, false) => assert block == [MouseDecl];
    case (false, true, true) => assert block == [Channel0Decl, TimeDecl];
    case (false, true, false) => assert block == [Channel0Decl];
    case (false, false, true) => assert block == [TimeDecl];
    case (false, false, false) => assert block == [];
  }

  /** The three optional declarations are different lines, ranked 0, 1 and 2. */
  lemma DeclarationRanks()
    ensures DeclarationRank(MouseDecl) == 0
    ensures DeclarationRank(Channel0Decl) == 1
    ensures DeclarationRank(TimeDecl) == 2
  {
    assert MouseDecl[8] == 'v' && Channel0Decl[8] == 's' && TimeDecl[8] == 'f';
  }

  /**
   * As text, the shader begins with the prelude, each line followed by a
   * line break, and ends with the trimmed body, a line break and the `main`
   * wrapper; the two never overlap.
   */
  lemma BuildFragText(opts: FragOptions)
    ensures var text := BuildFrag(opts);
      var head := Include + "\n" + Precision + "\n" + ResolutionDecl + "\n";
      var tail := Trim(opts.source) + "\n" + MainLine;
      |head| + |tail| <= |text| && text[..|head|] == head && text[|text| - |tail|..] == tail
  {
    var lines := FragLines(opts);
    assert lines[0] == Include && lines[1] == Precision && lines[2] == ResolutionDecl;
    assert lines[|lines| - 2] == Trim(opts.source) && lines[|lines| - 1] == MainLine;
    JoinEnds(lines, '\n');
  }

  /** The first three lines and the last two of a joined text of at least five lines. */
  lemma JoinEnds(lines: seq<string>, sep: char)
    requires |lines| >= 5
    ensures var text := Join(lines, sep);
      var head := lines[0] + [sep] + lines[1] + [sep] + lines[2] + [sep];
      var tail := lines[|lines| - 2] + [sep] + lines[|lines| - 1];
      |head| + |tail| <= |text| && text[..|head|] == head && text[|text| - |tail|..] == tail
  {
    var n := |lines|;
    var head := lines[0] + [sep] + lines[1] + [sep] + lines[2] + [sep];
    var tail := lines[n - 2] + [sep] + lines[n - 1];
    var first, rest := lines[..3], lines[3..];
    var init, last := lines[..n - 2], lines[n - 2..];
    assert lines == first + rest;
    assert lines == init + last;
    assert first == [lines[0], lines[1], lines[2]];
    assert last == [lines[n - 2], lines[n - 1]];
    JoinAppend(first, rest, sep);
    JoinAppend(init, last, sep);
    JoinThree(lines[0], lines[1], lines[2], sep);
    JoinTwo(lines[n - 2], lines[n - 1], sep);
    var text := Join(lines, sep);
    assert text == head + Join(rest, sep);
    assert text == Join(init, sep) + [sep] + tail;
    assert text[..|head|] == head;
    assert text[|text| - |tail|..] == tail;
    assert |Join(init, sep) + [sep]| >= |head| by {
      if n > 5 {
        assert init == first + lines[3..n - 2];
        JoinAppend(first, lines[3..n - 2], sep);
      } else {
        assert init == first;
      }
    }
  }

  lemma JoinTwo(a: string, b: string, sep: char)
    ensures Join([a, b], sep) == a + [sep] + b
  {
    assert [a, b][1..] == [b];
  }

  lemma JoinThree(a: string, b: string, c: string, sep: char)
    ensures Join([a, b, c], sep) == a + [sep] + b + [sep] + c
  {
    assert [a, b, c][1..] == [b, c];
    JoinTwo(b, c, sep);
  }

  // ---------------------------------------------------------------------
  // The three passes
  // ---------------------------------------------------------------------

  /** The three scenes: buffer A, buffer B, and the final image. */
  datatype Pass = PassA | PassB | PassImage

  /**
   * The options each material passes to `buildFrag`: A wants the mouse and
   * the time, B the previous buffer and the time, Image the previous buffer.
   */
  function PassOptions(pass: Pass, source: string): FragOptions
  {
    match pass
    case PassA => FragOptions(true, false, true, source)
    case PassB => FragOptions(false, true, true, source)
    case PassImage => FragOptions(false, true, false, source)
  }

  /**
   * A pass's shader declares `iChannel0` exactly when its uniform record
   * carries a texture (B and Image), and `iTime` exactly when it carries a
   * time (A and B); every pass declares `iResolution`.
   */
  lemma PassDeclarations(pass: Pass, source: string)
    ensures var opts := PassOptions(pass, source);
      ResolutionDecl in FragLines(opts)[..3]
      && (Channel0Decl in DeclarationBlock(opts) <==> pass != PassA)
      && (TimeDecl in DeclarationBlock(opts) <==> pass != PassImage)
      && (MouseDecl in DeclarationBlock(opts) <==> pass == PassA)
  {
    FragLinesLayout(PassOptions(pass, source));
    DeclarationBlockInOrder(PassOptions(pass, source));
  }

  // ---------------------------------------------------------------------
  // Values kept between frames
  // ---------------------------------------------------------------------

  /** A texture handle; the n-th texture allocated gets handle n. */
  type TextureId = nat

  /** A render target: its size and the texture it draws into. */
  datatype RenderTarget = RenderTarget(width: nat, height: nat, texture: TextureId)

  datatype Vec3 = Vec3(x: real, y: real, z: real)
  datatype Vec4 = Vec4(x: real, y: real, z: real, w: real)

  /** The uniforms of pass A. */
  datatype UniformsA = UniformsA(iResolution: Vec3, iMouse: Vec4, iTime: real, iScrollProgress: real)

  /** The uniforms of pass B; `iChannel0` is `null` until the first target exists. */
  datatype UniformsB = UniformsB(iResolution: Vec3, iChannel0: Option<TextureId>, iTime: real)

  /** The uniforms of the final image pass. */
  datatype UniformsImage = UniformsImage(iResolution: Vec3, iChannel0: Option<TextureId>)

  /** One `renderer.render` call: which pass, into which texture (`None` for the screen), reading which texture. */
  datatype Draw = Draw(pass: Pass, target: Option<TextureId>, input: Option<TextureId>)

  /** `MOUSE_REACTIVITY`. */
  const MouseReactivity: real := 0.15

  /** `lerp(x, y, t)` of three.js: `(1 - t) * x + t * y`. */
  function Lerp(x: real, y: real, t: real): real
  {
    (1.0 - t) * x + t * y
  }

  /**
   * Each frame the smoothed mouse coordinate closes 15% of its distance to
   * the pointer: the remaining gap is 85% of the previous one, and the new
   * value lies between the old value and the target.
   */
  lemma LerpClosesGap(lerped: real, actual: real)
    ensures var next := Lerp(lerped, actual, MouseReactivity);
      next - actual == 0.85 * (lerped - actual)
      && (lerped <= actual ==> lerped <= next <= actual)
      && (actual <= lerped ==> actual <= next <= lerped)
  {
  }

  /**
   * The draws of one frame when A renders into texture `a`, B into `b`, and
   * the passes read the textures their `iChannel0` uniforms hold.
   */
  function FrameDraws(a: TextureId, b: TextureId): seq<Draw>
  {
    [Draw(PassA, Some(a), None), Draw(PassB, Some(b), Some(a)), Draw(PassImage, None, Some(b))]
  }

  /**
   * In a frame the passes run A, B, Image; each pass after the first reads
   * the texture the pass before it has just written, only the last draws to
   * the screen, and no pass reads the texture it writes.
   */
  lemma FrameIsAChain(a: TextureId, b: TextureId)
    requires a != b
    ensures var draws := FrameDraws(a, b);
      |draws| == 3
      && draws[0].pass == PassA && draws[1].pass == PassB && draws[2].pass == PassImage
      && (forall i :: 1 <= i < |draws| ==> draws[i].input == draws[i - 1].target)
      && (forall i :: 0 <= i < |draws| ==> (draws[i].target.None? <==> i == |draws| - 1))
      && (forall i :: 0 <= i < |draws| ==> draws[i].input.None? || draws[i].input != draws[i].target)
  {
  }

  // ---------------------------------------------------------------------
  // The module state
  // ---------------------------------------------------------------------

  class Pipeline {
    /** `canvas.width` and `canvas.height`, the drawing-buffer size. */
    var canvasWidth: nat
    var canvasHeight: nat
    var rtA: RenderTarget
    var rtB: RenderTarget
    /** The handle the next allocated texture gets. */
    var nextTexture: TextureId
    /** Textures released by `dispose`. */
    var disposed: set<TextureId>
    var uniformsA: UniformsA
    var uniformsB: UniformsB
    var uniformsImage: UniformsImage
    var actualMouseX: real
    var actualMouseY: real
    var lerpedMouseX: real
    var lerpedMouseY: real
    /** Every `renderer.render` call so far, oldest first. */
    var draws: seq<Draw>

    /**
     * Both targets match the canvas, B samples A's texture and Image samples
     * B's, and the two textures are distinct, allocated and not released.
     */
    ghost predicate Valid()
      reads this
    {
      && rtA.width == canvasWidth && rtA.height == canvasHeight
      && rtB.width == canvasWidth && rtB.height == canvasHeight
      && uniformsB.iChannel0 == Some(rtA.texture)
      && uniformsImage.iChannel0 == Some(rtB.texture)
      && rtA.texture != rtB.texture
      && rtA.texture < nextTexture && rtB.texture < nextTexture
      && rtA.texture !in disposed && rtB.texture !in disposed
      && (forall t :: t in disposed ==> t < nextTexture)
    }

    /**
     * Module start-up on a canvas of the given size: fresh uniform records,
     * two render targets of the canvas's size (the first two textures), and
     * the channel wiring between them.
     */
    constructor (width: nat, height: nat)
      ensures Valid()
      ensures canvasWidth == width && canvasHeight == height
      ensures rtA == RenderTarget(width, height, 0) && rtB == RenderTarget(width, height, 1)
      ensures nextTexture == 2 && disposed == {}
      ensures uniformsA == UniformsA(Vec3(0.0, 0.0, 0.0), Vec4(0.0, 0.0, 0.0, 1.0), 0.0, 0.0)
      ensures uniformsB == UniformsB(Vec3(0.0, 0.0, 0.0), Some(rtA.texture), 0.0)
      ensures uniformsImage == UniformsImage(Vec3(0.0, 0.0, 0.0), Some(rtB.texture))
      ensures actualMouseX == 0.0 && actualMouseY == 0.0 && lerpedMouseX == 0.0 && lerpedMouseY == 0.0
      ensures draws == []
    {
      canvasWidth := width;
      canvasHeight := height;
      uniformsA := UniformsA(Vec3(0.0, 0.0, 0.0), Vec4(0.0, 0.0, 0.0, 1.0), 0.0, 0.0);
      var a := RenderTarget(width, height, 0);
      var b := RenderTarget(width, height, 1);
      rtA := a;
      rtB := b;
      nextTexture := 2;
      disposed := {};
      uniformsB := UniformsB(Vec3(0.0, 0.0, 0.0), Some(a.texture), 0.0);
      uniformsImage := UniformsImage(Vec3(0.0, 0.0, 0.0), Some(b.texture));
      actualMouseX, actualMouseY := 0.0, 0.0;
      lerpedMouseX, lerpedMouseY := 0.0, 0.0;
      draws := [];
    }

    /** The `pointermove` handler, given the pointer already in drawing-buffer coordinates. */
    method OnPointerMove(x: real, y: real)
      modifies this`actualMouseX, this`actualMouseY
      ensures actualMouseX == x && actualMouseY == y
    {
      actualMouseX := x;
      actualMouseY := y;
    }

    /**
     * `resizeRendererToDisplaySize`: reports whether the canvas differs from
     * the display size and, if so, resizes it; afterwards the canvas has the
     * display size.
     */
    method ResizeRendererToDisplaySize(displayWidth: nat, displayHeight: nat) returns (needResize: bool)
      modifies this`canvasWidth, this`canvasHeight
      ensures needResize <==> old(canvasWidth) != displayWidth || old(canvasHeight) != displayHeight
      ensures canvasWidth == displayWidth && canvasHeight == displayHeight
    {
      needResize := canvasWidth != displayWidth || canvasHeight != displayHeight;
      if needResize {
        canvasWidth := displayWidth;
        canvasHeight := displayHeight;
      }
    }

    /** `makeRenderTarget`: a target of the canvas's size drawing into a newly allocated texture. */
    method MakeRenderTarget() returns (rt: RenderTarget)
      modifies this`nextTexture
      ensures rt == RenderTarget(canvasWidth, canvasHeight, old(nextTexture))
      ensures nextTexture == old(nextTexture) + 1
    {
      rt := RenderTarget(canvasWidth, canvasHeight, nextTexture);
      nextTexture := nextTexture + 1;
    }

    /** `rt.dispose()`: releases the target's texture. */
    method Dispose(rt: RenderTarget)
      modifies this`disposed
      ensures disposed == old(disposed) + {rt.texture}
    {
      disposed := disposed + {rt.texture};
    }

    /** `updateResUniforms`: every pass sees the canvas size as `(width, height, 1)`. */
    method UpdateResUniforms()
      modifies this`uniformsA, this`uniformsB, this`uniformsImage
      ensures var res := Vec3(canvasWidth as real, canvasHeight as real, 1.0);
        uniformsA == old(uniformsA).(iResolution := res)
        && uniformsB == old(uniformsB).(iResolution := res)
        && uniformsImage == old(uniformsImage).(iResolution := res)
      ensures uniformsB.iChannel0 == old(uniformsB.iChannel0) && uniformsImage.iChannel0 == old(uniformsImage.iChannel0)
      ensures uniformsB.iTime == old(uniformsB.iTime)
    {
      var res := Vec3(canvasWidth as real, canvasHeight as real, 1.0);
      uniformsA := uniformsA.(iResolution := res);
      uniformsB := uniformsB.(iResolution := res);
      uniformsImage := uniformsImage.(iResolution := res);
    }

    /**
     * `onResize`: when the display size differs from the canvas, resizes
     * the canvas, releases both targets, makes two new ones of the new size,
     * rewires the channels to them and updates the resolutions; otherwise
     * nothing changes.
     */
    method OnResize(displayWidth: nat, displayHeight: nat)
      requires Valid()
      modifies this`canvasWidth, this`canvasHeight, this`rtA, this`rtB, this`nextTexture, this`disposed
      modifies this`uniformsA, this`uniformsB, this`uniformsImage
      ensures Valid()
      ensures canvasWidth == displayWidth && canvasHeight == displayHeight
      ensures old(canvasWidth) == displayWidth && old(canvasHeight) == displayHeight ==> unchanged(this)
      ensures old(canvasWidth) != displayWidth || old(canvasHeight) != displayHeight ==>
        && rtA.texture == old(nextTexture) && rtB.texture == old(nextTexture) + 1
        && nextTexture == old(nextTexture) + 2
        && disposed == old(disposed) + {old(rtA).texture, old(rtB).texture}
        && uniformsA == old(uniformsA).(iResolution := Vec3(displayWidth as real, displayHeight as real, 1.0))
        && uniformsB.iResolution == uniformsA.iResolution && uniformsB.iTime == old(uniformsB).iTime
        && uniformsImage.iResolution == uniformsA.iResolution
    {
      var needResize := ResizeRendererToDisplaySize(displayWidth, displayHeight);
      if needResize {
        Dispose(rtA);
        Dispose(rtB);
        rtA := MakeRenderTarget();
        rtB := MakeRenderTarget();
        uniformsB := uniformsB.(iChannel0 := Some(rtA.texture));
        uniformsImage := uniformsImage.(iChannel0 := Some(rtB.texture));
        UpdateResUniforms();
      }
    }

    /** The texture a pass samples: the one its `iChannel0` uniform holds. */
    function Input(pass: Pass): Option<TextureId>
      reads this
    {
      match pass
      case PassA => None
      case PassB => uniformsB.iChannel0
      case PassImage => uniformsImage.iChannel0
    }

    /**
     * `renderer.setRenderTarget(target)` followed by
     * `renderer.render(scene, camera)`: one draw of `pass`, reading the
     * texture held by its `iChannel0` uniform.
     */
    method DrawPass(pass: Pass, target: Option<TextureId>)
      modifies this`draws
      ensures draws == old(draws) + [Draw(pass, target, Input(pass))]
    {
      draws := draws + [Draw(pass, target, Input(pass))];
    }

    /**
     * `render(timeSecs)` for one animation frame, given the floored display
     * size and the page's scroll progress: resizes if needed, sets the
     * resolutions, the times and the smoothed mouse, then draws A into
     * `rtA`, B into `rtB` and the image to the screen.
     */
    method Render(timeSecs: real, displayWidth: nat, displayHeight: nat, scrollProgress: real)
      requires Valid()
      modifies this
      ensures Valid()
      ensures canvasWidth == displayWidth && canvasHeight == displayHeight
      ensures old(canvasWidth) == displayWidth && old(canvasHeight) == displayHeight ==>
        rtA == old(rtA) && rtB == old(rtB) && nextTexture == old(nextTexture) && disposed == old(disposed)
      ensures old(canvasWidth) != displayWidth || old(canvasHeight) != displayHeight ==>
        && rtA.texture == old(nextTexture) && rtB.texture == old(nextTexture) + 1
        && nextTexture == old(nextTexture) + 2
        && disposed == old(disposed) + {old(rtA).texture, old(rtB).texture}
      ensures var res := Vec3(displayWidth as real, displayHeight as real, 1.0);
        uniformsA.iResolution == res && uniformsB.iResolution == res && uniformsImage.iResolution == res
      ensures uniformsA.iTime == timeSecs * 0.001 && uniformsB.iTime == uniformsA.iTime
      ensures uniformsA.iScrollProgress == scrollProgress
      ensures lerpedMouseX == Lerp(old(lerpedMouseX), actualMouseX, MouseReactivity)
      ensures lerpedMouseY == Lerp(old(lerpedMouseY), actualMouseY, MouseReactivity)
      ensures uniformsA.iMouse == Vec4(lerpedMouseX, lerpedMouseY, 0.0, 0.0)
      ensures actualMouseX == old(actualMouseX) && actualMouseY == old(actualMouseY)
      ensures draws == old(draws) + FrameDraws(rtA.texture, rtB.texture)
    {
      OnResize(displayWidth, displayHeight);
      UpdateResUniforms();

      var timeMs := timeSecs * 0.001;
      uniformsA := uniformsA.(iTime := timeMs);
      uniformsB := uniformsB.(iTime := timeMs);
      uniformsA := uniformsA.(iScrollProgress := scrollProgress);
      lerpedMouseX := Lerp(lerpedMouseX, actualMouseX, MouseReactivity);
      lerpedMouseY := Lerp(lerpedMouseY, actualMouseY, MouseReactivity);
      uniformsA := uniformsA.(iMouse := Vec4(lerpedMouseX, lerpedMouseY, 0.0, 0.0));

      DrawPass(PassA, Some(rtA.texture));
      DrawPass(PassB, Some(rtB.texture));
      DrawPass(PassImage, None);
    }
  }
}
