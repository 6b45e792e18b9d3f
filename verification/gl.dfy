/** The slice of the OpenGL texture API that the scene manager drives,
    reduced to an event log plus the unit-binding state those events change. */
module Gl {

  /** An OpenGL object name (GLuint), a 32-bit unsigned integer. */
  type uint32 = x: int | 0 <= x < 0x1_0000_0000

  /** Reading a 32-bit pattern as a signed `int`: the two's-complement
      conversion that `int` assignments from `uint32_t` perform on the
      program's target platforms. */
  function AsInt32(u: uint32): (r: int)
    ensures -0x8000_0000 <= r < 0x8000_0000
    ensures (r - u) % 0x1_0000_0000 == 0
    ensures r == -1 <==> u == 0xFFFF_FFFF
  {
    if u < 0x8000_0000 then u else u - 0x1_0000_0000
  }

  datatype PixelFormat = Rgb8 | Rgba8

  datatype TexParameter = WrapS | WrapT | MinFilter | MagFilter

  datatype TexParameterValue = Repeat | Linear

  /** One call into the graphics driver, on the GL_TEXTURE_2D target. */
  datatype GpuEvent =
    | GenTexture(name: uint32)
    | BindTexture(name: uint32)
    | TexParameteri(param: TexParameter, value: TexParameterValue)
    | TexImage2D(format: PixelFormat, width: int, height: int)
    | GenerateMipmap
    | ActiveTexture(textureUnit: int)
    | DeleteTexture(name: uint32)

  /** Which texture name each texture unit has bound to GL_TEXTURE_2D,
      and which unit glActiveTexture last selected. */
  datatype Bindings = Bindings(activeUnit: int, bound: map<int, uint32>)

  function Step(g: Bindings, e: GpuEvent): Bindings
  {
    match e
    case ActiveTexture(u) => g.(activeUnit := u)
    case BindTexture(n) => g.(bound := g.bound[g.activeUnit := n])
    case _ => g
  }

  /** The binding state after the driver has executed `events` in order. */
  function Run(g: Bindings, events: seq<GpuEvent>): Bindings
    decreases |events|
  {
    if |events| == 0 then g else Run(Step(g, events[0]), events[1..])
  }

  lemma {:induction false} RunConcat(g: Bindings, a: seq<GpuEvent>, b: seq<GpuEvent>)
    ensures Run(g, a + b) == Run(Run(g, a), b)
    decreases |a|
  {
    if |a| == 0 {
      assert a + b == b;
    } else {
      assert (a + b)[1..] == a[1..] + b;
      RunConcat(Step(g, a[0]), a[1..], b);
    }
  }
}
