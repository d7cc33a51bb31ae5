/** What the renderer asks of the PDF canvas, recorded as a list of
    instructions: text anchored on the left, on the right or at its centre,
    a straight rule, and the end of a page. Fonts, line widths and images are
    not recorded. */
module Canvas {

  datatype Align = Left | Right | Centre

  datatype Instr =
    | Text(align: Align, x: real, y: real, s: string)
    | Rule(x1: real, y1: real, x2: real, y2: real)
    | ShowPage

  /** Points per millimetre (reportlab's `mm`). */
  const Mm: real := 72.0 / 25.4
}
