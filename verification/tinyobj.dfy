/** The part of the OBJ loader's result that the mesh builder reads: the
    per-shape index streams and the three flat attribute pools.  The loader
    itself is not modelled; its result is an input value. */
module TinyObj {

  /** C `int`, the type of the loader's per-occurrence index fields. */
  newtype Int32 = x: int | -0x8000_0000 <= x < 0x8000_0000

  /** `GLuint`, the element type of the model's index list. */
  newtype UInt32 = x: int | 0 <= x < 0x1_0000_0000

  /** One face-vertex occurrence: where its position, normal and texture
      coordinate live in the three pools (counted in records, not floats). */
  datatype Index = Index(vertexIndex: Int32, normalIndex: Int32, texcoordIndex: Int32)

  /** A shape's mesh, reduced to its index stream: one entry per face-vertex
      occurrence, in face order. */
  datatype Shape = Shape(indices: seq<Index>)

  /** The loader's attribute pools, flattened: xyz triples of positions, xyz
      triples of normals and uv pairs of texture coordinates.  The element
      type stands for a 32-bit float that is only ever copied. */
  datatype Attrib<T> = Attrib(vertices: seq<T>, normals: seq<T>, texcoords: seq<T>)

  /** The implicit C++ conversion of an `int` to `GLuint`: the value modulo 2^32. */
  function ToUInt32(i: Int32): (r: UInt32)
    ensures 0 <= i ==> r as int == i as int
    ensures i < 0 ==> r as int == i as int + 0x1_0000_0000
  {
    ((i as int) % 0x1_0000_0000) as UInt32
  }
}
