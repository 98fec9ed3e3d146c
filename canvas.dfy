/** The subset of a canvas and its `CanvasRenderingContext2D` that the core
    uses. The context keeps its drawing state (current transform, font,
    styles, alpha, line width, text alignment), the stack that `save` and
    `restore` work on, and a log of the drawing calls issued. Pixels are not
    modelled: a drawing call is recorded together with the state it was
    issued in. */
module Canvas {

  /** A text advance width as `measureText(...).width` reports it. */
  type Width = r: real | r >= 0.0

  /** The font a context draws with: a pixel size and a family list. */
  datatype Font = Font(sizePx: real, family: string)

  /** An affine matrix as `ctx.transform(a, b, c, d, e, f)` takes it:
      the point (x, y) goes to (a*x + c*y + e, b*x + d*y + f). */
  datatype Matrix = Matrix(a: real, b: real, c: real, d: real, e: real, f: real)

  datatype Point = Point(x: real, y: real)

  function Apply(m: Matrix, p: Point): Point {
    Point(m.a * p.x + m.c * p.y + m.e, m.b * p.x + m.d * p.y + m.f)
  }

  /** One step composed onto the current transform. `Rotate` keeps the angle
      in degrees as the caller computed it; the conversion to radians and the
      trigonometry are not modelled. */
  datatype TransformOp =
    | Translate(tx: real, ty: real)
    | Rotate(angleDeg: real)
    | Scale(sx: real, sy: real)
    | Transform(m: Matrix)

  /** The drawing state that `save` pushes and `restore` pops. `transform`
      lists the operations composed onto the identity, outermost first. */
  datatype DrawState = DrawState(
    transform: seq<TransformOp>,
    font: Font,
    fillStyle: string,
    strokeStyle: string,
    globalAlpha: real,
    lineWidth: real,
    textAlign: string,
    textBaseline: string)

  /** The state of a freshly created 2D context. */
  const InitialState := DrawState([], Font(10.0, "sans-serif"), "#000000", "#000000", 1.0, 1.0, "start", "alphabetic")

  /** A drawing call, with the state in force when it was issued. */
  datatype DrawCall =
    | FillText(text: string, x: real, y: real, state: DrawState)
    | StrokeText(text: string, x: real, y: real, state: DrawState)
    | DrawImage(x: real, y: real, w: real, h: real, state: DrawState)

  /** The alpha in force after assigning `alpha` to `globalAlpha`: values
      outside [0, 1] leave it unchanged. */
  function AlphaAfter(current: real, alpha: real): (r: real)
    ensures 0.0 <= current <= 1.0 ==> 0.0 <= r <= 1.0
    ensures r == alpha <==> (0.0 <= alpha <= 1.0 || alpha == current)
  {
    if 0.0 <= alpha <= 1.0 then alpha else current
  }

  /** The line width in force after assigning `w` to `lineWidth`: a value
      that is not positive leaves it unchanged. */
  function LineWidthAfter(current: real, w: real): (r: real)
    ensures current > 0.0 ==> r > 0.0
    ensures r == w <==> (w > 0.0 || w == current)
  {
    if w > 0.0 then w else current
  }

  /** A canvas of `width` x `height` pixels together with its 2D context.
      `measure` is the platform's text measurement for a font. */
  class Context {
    const width: nat
    const height: nat
    const measure: (Font, string) -> Width
    var state: DrawState
    var stack: seq<DrawState>
    var log: seq<DrawCall>

    constructor (width: nat, height: nat, measure: (Font, string) -> Width)
      ensures this.width == width && this.height == height && this.measure == measure
      ensures state == InitialState && stack == [] && log == []
    {
      this.width := width;
      this.height := height;
      this.measure := measure;
      state := InitialState;
      stack := [];
      log := [];
    }

    /** `ctx.measureText(text).width` under the current font. */
    function MeasureText(text: string): Width
      reads this
    {
      measure(state.font, text)
    }

    method Save()
      modifies this
      ensures stack == old(stack) + [old(state)]
      ensures state == old(state) && log == old(log)
    {
      stack := stack + [state];
    }

    /** Pops the saved state; with nothing saved, does nothing. */
    method Restore()
      modifies this
      ensures old(stack) == [] ==> stack == [] && state == old(state)
      ensures old(stack) != [] ==>
        stack == old(stack)[..|old(stack)| - 1] && state == old(stack)[|old(stack)| - 1]
      ensures log == old(log)
    {
      if stack != [] {
        state := stack[|stack| - 1];
        stack := stack[..|stack| - 1];
      }
    }

    method Compose(op: TransformOp)
      modifies this
      ensures state == old(state).(transform := old(state).transform + [op])
      ensures stack == old(stack) && log == old(log)
    {
      state := state.(transform := state.transform + [op]);
    }

    method Translate(tx: real, ty: real)
      modifies this
      ensures state == old(state).(transform := old(state).transform + [TransformOp.Translate(tx, ty)])
      ensures stack == old(stack) && log == old(log)
    {
      Compose(TransformOp.Translate(tx, ty));
    }

    method Rotate(angleDeg: real)
      modifies this
      ensures state == old(state).(transform := old(state).transform + [TransformOp.Rotate(angleDeg)])
      ensures stack == old(stack) && log == old(log)
    {
      Compose(TransformOp.Rotate(angleDeg));
    }

    method Scale(sx: real, sy: real)
      modifies this
      ensures state == old(state).(transform := old(state).transform + [TransformOp.Scale(sx, sy)])
      ensures stack == old(stack) && log == old(log)
    {
      Compose(TransformOp.Scale(sx, sy));
    }

    method Transform(a: real, b: real, c: real, d: real, e: real, f: real)
      modifies this
      ensures state == old(state).(transform := old(state).transform + [TransformOp.Transform(Matrix(a, b, c, d, e, f))])
      ensures stack == old(stack) && log == old(log)
    {
      Compose(TransformOp.Transform(Matrix(a, b, c, d, e, f)));
    }

    method SetFont(font: Font)
      modifies this
      ensures state == old(state).(font := font)
      ensures stack == old(stack) && log == old(log)
    {
      state := state.(font := font);
    }

    method SetFillStyle(style: string)
      modifies this
      ensures state == old(state).(fillStyle := style)
      ensures stack == old(stack) && log == old(log)
    {
      state := state.(fillStyle := style);
    }

    method SetStrokeStyle(style: string)
      modifies this
      ensures state == old(state).(strokeStyle := style)
      ensures stack == old(stack) && log == old(log)
    {
      state := state.(strokeStyle := style);
    }

    /** The `globalAlpha` setter ignores a value outside [0, 1]. */
    method SetGlobalAlpha(alpha: real)
      modifies this
      ensures state == old(state).(globalAlpha := AlphaAfter(old(state).globalAlpha, alpha))
      ensures stack == old(stack) && log == old(log)
    {
      if 0.0 <= alpha <= 1.0 {
        state := state.(globalAlpha := alpha);
      }
    }

    /** The `lineWidth` setter ignores a value that is not positive. */
    method SetLineWidth(w: real)
      modifies this
      ensures state == old(state).(lineWidth := LineWidthAfter(old(state).lineWidth, w))
      ensures stack == old(stack) && log == old(log)
    {
      if w > 0.0 {
        state := state.(lineWidth := w);
      }
    }

    method SetTextAlign(align: string)
      modifies this
      ensures state == old(state).(textAlign := align)
      ensures stack == old(stack) && log == old(log)
    {
      state := state.(textAlign := align);
    }

    method SetTextBaseline(baseline: string)
      modifies this
      ensures state == old(state).(textBaseline := baseline)
      ensures stack == old(stack) && log == old(log)
    {
      state := state.(textBaseline := baseline);
    }

    method FillText(text: string, x: real, y: real)
      modifies this
      ensures log == old(log) + [DrawCall.FillText(text, x, y, state)]
      ensures state == old(state) && stack == old(stack)
    {
      log := log + [DrawCall.FillText(text, x, y, state)];
    }

    method StrokeText(text: string, x: real, y: real)
      modifies this
      ensures log == old(log) + [DrawCall.StrokeText(text, x, y, state)]
      ensures state == old(state) && stack == old(stack)
    {
      log := log + [DrawCall.StrokeText(text, x, y, state)];
    }

    method DrawImage(x: real, y: real, w: real, h: real)
      modifies this
      ensures log == old(log) + [DrawCall.DrawImage(x, y, w, h, state)]
      ensures state == old(state) && stack == old(stack)
    {
      log := log + [DrawCall.DrawImage(x, y, w, h, state)];
    }
  }
}
