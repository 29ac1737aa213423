/** The value types the drawing routines consume: colours, 2-D vectors,
    texture coordinates, screen-space triangles, textures and integer pixel
    positions. */
module Types {

  newtype byte = x: int | 0 <= x < 256

  /** An RGB colour, `Color::new(r, g, b)`. */
  datatype Color = Color(r: byte, g: byte, b: byte)

  /** A 2-D position with `f32` components, modelled exactly. */
  datatype Vec2 = Vec2(x: real, y: real)

  /** A texture coordinate. */
  datatype Tex2 = Tex2(u: real, v: real)

  /** The three corners of a triangle (`[Vec2; 3]`). */
  type Points3 = s: seq<Vec2> | |s| == 3
    witness [Vec2(0.0, 0.0), Vec2(0.0, 0.0), Vec2(0.0, 0.0)]

  /** The three corner texture coordinates (`[Tex2; 3]`). */
  type TexCoords3 = s: seq<Tex2> | |s| == 3
    witness [Tex2(0.0, 0.0), Tex2(0.0, 0.0), Tex2(0.0, 0.0)]

  /** A screen-space triangle: its corner positions and texture coordinates. */
  datatype Triangle = Triangle(points: Points3, texCoords: TexCoords3)

  /** A texture: its dimensions and texels. The drawing routines never read it. */
  datatype Texture = Texture(width: nat, height: nat, texels: seq<Color>)

  /** An integer position: a pixel, or a vertex after flooring. */
  datatype Point = Point(x: int, y: int)
}
