/** A renderable model: its initial pose, the index list and the interleaved
    vertex buffer that its constructor builds from the loader's result. */
module Model {
  import opened TinyObj
  import opened MeshLayout

  /** `T` stands for the 32-bit float of the pose fields and of the vertex
      buffer; the model only stores and copies such values. */
  class Model3D<T> {
    var x: T
    var y: T
    var z: T
    var rotX: T
    var rotY: T
    var rotZ: T
    var scaleX: T
    var scaleY: T
    var scaleZ: T
    var theta: T
    var meshIndices: seq<UInt32>
    var fullVertexData: seq<T>

    /** One 8-float record per index-list entry.  That record k holds the
        position that entry k addresses is `MeshLayout.IndexedPosition`. */
    predicate Consistent()
      reads this
    {
      |fullVertexData| == 8 * |meshIndices|
    }

    /** The vertex count handed to the draw call: buffer length over the stride. */
    function DrawCount(): (n: nat)
      reads this
      requires Consistent()
      ensures n == |meshIndices|
    {
      |fullVertexData| / 8
    }

    /** Stores the pose, then flattens the loader's `shapes` over the pools in
        `attrib`: first the index list, then the vertex buffer.  The pools are
        read unchecked, so every occurrence's indices must be in range. */
    constructor (shapes: seq<Shape>, attrib: Attrib<T>,
                 x: T, y: T, z: T, rotX: T, rotY: T, rotZ: T,
                 scaleX: T, scaleY: T, scaleZ: T, theta: T)
      requires ShapesInRange(attrib, shapes)
      ensures this.x == x && this.y == y && this.z == z
      ensures this.rotX == rotX && this.rotY == rotY && this.rotZ == rotZ
      ensures this.scaleX == scaleX && this.scaleY == scaleY && this.scaleZ == scaleZ
      ensures this.theta == theta
      ensures AllInRange(attrib, Occurrences(shapes))
      ensures meshIndices == VertexIndices(Occurrences(shapes))
      ensures fullVertexData == Interleave(attrib, Occurrences(shapes))
      ensures Consistent()
    {
      this.x, this.y, this.z := x, y, z;
      this.rotX, this.rotY, this.rotZ := rotX, rotY, rotZ;
      this.scaleX, this.scaleY, this.scaleZ := scaleX, scaleY, scaleZ;
      this.theta := theta;
      meshIndices := [];
      fullVertexData := [];
      new;
      AppendMeshIndices(shapes);
      AppendVertexData(shapes, attrib);
    }

    /** The first constructor loop: pushes every occurrence's `vertex_index`
        onto the index list, shape by shape.  Only the index list changes,
        and only at its end.  It is a step of the constructor only: called on
        its own, it breaks `Consistent()`. */
    method AppendMeshIndices(shapes: seq<Shape>)
      modifies this`meshIndices
      ensures meshIndices == old(meshIndices) + VertexIndices(Occurrences(shapes))
    {
      ghost var visited: seq<Index> := [];
      var s := 0;
      while s < |shapes|
        invariant 0 <= s <= |shapes|
        invariant visited == Occurrences(shapes[..s])
        invariant meshIndices == old(meshIndices) + VertexIndices(visited)
      {
        ghost var done := visited;
        var i := 0;
        while i < |shapes[s].indices|
          invariant 0 <= i <= |shapes[s].indices|
          invariant visited == done + shapes[s].indices[..i]
          invariant meshIndices == old(meshIndices) + VertexIndices(visited)
        {
          var vData := shapes[s].indices[i];
          meshIndices := meshIndices + [ToUInt32(vData.vertexIndex)];
          VertexIndicesSnoc(visited, vData);
          AppendAssoc(old(meshIndices), VertexIndices(visited), [ToUInt32(vData.vertexIndex)]);
          PrefixSnoc(done, shapes[s].indices, i);
          visited := visited + [vData];
          i := i + 1;
        }
        PrefixFull(done, shapes[s].indices);
        OccurrencesSnoc(shapes, s);
        s := s + 1;
      }
      assert shapes[..s] == shapes;
    }

    /** The body of the second constructor loop: pushes the three position
        floats, the three normal floats and the two texture coordinate floats
        that the index triple `vData` addresses. */
    method PushRecord(attrib: Attrib<T>, vData: Index)
      requires InRange(attrib, vData)
      modifies this`fullVertexData
      ensures fullVertexData == old(fullVertexData) + Record(attrib, vData)
    {
      fullVertexData := fullVertexData + [attrib.vertices[vData.vertexIndex * 3]];
      fullVertexData := fullVertexData + [attrib.vertices[(vData.vertexIndex * 3) + 1]];
      fullVertexData := fullVertexData + [attrib.vertices[(vData.vertexIndex * 3) + 2]];

      fullVertexData := fullVertexData + [attrib.normals[vData.normalIndex * 3]];
      fullVertexData := fullVertexData + [attrib.normals[(vData.normalIndex * 3) + 1]];
      fullVertexData := fullVertexData + [attrib.normals[(vData.normalIndex * 3) + 2]];

      fullVertexData := fullVertexData + [attrib.texcoords[vData.texcoordIndex * 2]];
      fullVertexData := fullVertexData + [attrib.texcoords[(vData.texcoordIndex * 2) + 1]];

      RecordElements(attrib, vData);
    }

    /** The second constructor loop: pushes, for every occurrence, the three
        position floats, the three normal floats and the two texture
        coordinate floats its index triple addresses (`PushRecord`).  Only
        the vertex buffer changes, and only at its end.  It is a step of the
        constructor only: called on its own, it breaks `Consistent()`. */
    method AppendVertexData(shapes: seq<Shape>, attrib: Attrib<T>)
      requires ShapesInRange(attrib, shapes)
      modifies this`fullVertexData
      ensures AllInRange(attrib, Occurrences(shapes))
      ensures fullVertexData == old(fullVertexData) + Interleave(attrib, Occurrences(shapes))
    {
      ghost var visited: seq<Index> := [];
      var s := 0;
      while s < |shapes|
        invariant 0 <= s <= |shapes|
        invariant visited == Occurrences(shapes[..s])
        invariant AllInRange(attrib, visited)
        invariant fullVertexData == old(fullVertexData) + Interleave(attrib, visited)
      {
        ghost var done := visited;
        assert shapes[s] in shapes;
        var i := 0;
        while i < |shapes[s].indices|
          invariant 0 <= i <= |shapes[s].indices|
          invariant visited == done + shapes[s].indices[..i]
          invariant AllInRange(attrib, visited)
          invariant fullVertexData == old(fullVertexData) + Interleave(attrib, visited)
        {
          var vData := shapes[s].indices[i];
          assert vData in shapes[s].indices;
          PushRecord(attrib, vData);
          AppendAssoc(old(fullVertexData), Interleave(attrib, visited), Record(attrib, vData));
          InterleaveSnoc(attrib, visited, vData);
          PrefixSnoc(done, shapes[s].indices, i);
          visited := visited + [vData];
          i := i + 1;
        }
        PrefixFull(done, shapes[s].indices);
        OccurrencesSnoc(shapes, s);
        s := s + 1;
      }
      assert shapes[..s] == shapes;
    }
  }
}
