/** The regular interleaved vertex layout of a model: which face-vertex
    occurrences there are, in what order, and the 8-float record each one
    becomes.  These functions specify the two loops of the model's
    constructor; the renderer's attribute layout (`Fetch`) reads the records
    back. */
module MeshLayout {
  import opened TinyObj

  /** A vertex attribute as the renderer declares it: the float offset at
      which it starts inside a record and the number of floats it spans. */
  datatype Attribute = Attribute(offset: nat, size: nat)

  const PositionAttribute := Attribute(0, 3)
  const NormalAttribute := Attribute(3, 3)
  const TexCoordAttribute := Attribute(6, 2)

  /** A non-negative offset that C `int` arithmetic computes without overflow. */
  predicate FitsInt32(n: int) {
    n < 0x8000_0000
  }

  /** The occurrence's three pool offsets are computable in `int` and every
      float they address exists.  The constructor reads the pools without
      checking, so this is what its callers must guarantee. */
  predicate InRange<T>(a: Attrib<T>, ix: Index) {
    && 0 <= ix.vertexIndex && 3 * (ix.vertexIndex as int) + 2 < |a.vertices|
    && 0 <= ix.normalIndex && 3 * (ix.normalIndex as int) + 2 < |a.normals|
    && 0 <= ix.texcoordIndex && 2 * (ix.texcoordIndex as int) + 1 < |a.texcoords|
    && FitsInt32(3 * (ix.vertexIndex as int) + 2)
    && FitsInt32(3 * (ix.normalIndex as int) + 2)
    && FitsInt32(2 * (ix.texcoordIndex as int) + 1)
  }

  predicate AllInRange<T>(a: Attrib<T>, occ: seq<Index>) {
    forall ix :: ix in occ ==> InRange(a, ix)
  }

  predicate ShapesInRange<T>(a: Attrib<T>, shapes: seq<Shape>) {
    forall sh :: sh in shapes ==> AllInRange(a, sh.indices)
  }

  /** Number of index triples summed over all shapes. */
  function IndexCount(shapes: seq<Shape>): nat
  {
    if |shapes| == 0 then 0
    else IndexCount(shapes[..|shapes| - 1]) + |shapes[|shapes| - 1].indices|
  }

  /** Every face-vertex occurrence, shape by shape and, within a shape, in
      index order: the order in which both constructor loops visit them. */
  function Occurrences(shapes: seq<Shape>): (r: seq<Index>)
    ensures |r| == IndexCount(shapes)
  {
    if |shapes| == 0 then []
    else Occurrences(shapes[..|shapes| - 1]) + shapes[|shapes| - 1].indices
  }

  /** Index `i` of shape `s` is occurrence number `IndexCount(shapes[..s]) + i`. */
  lemma {:induction false} OccurrenceAt(shapes: seq<Shape>, s: nat, i: nat)
    requires s < |shapes| && i < |shapes[s].indices|
    ensures IndexCount(shapes[..s]) + i < |Occurrences(shapes)|
    ensures Occurrences(shapes)[IndexCount(shapes[..s]) + i] == shapes[s].indices[i]
  {
    var n := |shapes| - 1;
    assert shapes[..n][..s] == shapes[..s];
    if s < n {
      OccurrenceAt(shapes[..n], s, i);
    }
  }

  /** Conversely, every occurrence comes from exactly such a shape and position. */
  lemma {:induction false} OccurrenceOrigin(shapes: seq<Shape>, k: nat) returns (s: nat, i: nat)
    requires k < |Occurrences(shapes)|
    ensures s < |shapes| && i < |shapes[s].indices|
    ensures k == IndexCount(shapes[..s]) + i
    ensures Occurrences(shapes)[k] == shapes[s].indices[i]
  {
    var n := |shapes| - 1;
    if k < IndexCount(shapes[..n]) {
      s, i := OccurrenceOrigin(shapes[..n], k);
      assert shapes[..n][..s] == shapes[..s];
    } else {
      s, i := n, k - IndexCount(shapes[..n]);
      assert shapes[..n] == shapes[..s];
    }
    OccurrenceAt(shapes, s, i);
  }

  /** Every occurrence of shapes whose indices are in range is in range. */
  lemma {:induction false} OccurrencesInRange<T>(a: Attrib<T>, shapes: seq<Shape>)
    requires ShapesInRange(a, shapes)
    ensures AllInRange(a, Occurrences(shapes))
  {
    if |shapes| > 0 {
      var n := |shapes| - 1;
      assert shapes[n] in shapes;
      OccurrencesInRange(a, shapes[..n]);
    }
  }

  /** The index list: each occurrence's `vertex_index`, converted to `GLuint`. */
  function VertexIndices(occ: seq<Index>): (r: seq<UInt32>)
    ensures |r| == |occ|
    ensures forall k :: 0 <= k < |occ| ==> r[k] == ToUInt32(occ[k].vertexIndex)
  {
    if |occ| == 0 then []
    else VertexIndices(occ[..|occ| - 1]) + [ToUInt32(occ[|occ| - 1].vertexIndex)]
  }

  /** The occurrences of one more shape extend those of the shapes before it. */
  lemma OccurrencesSnoc(shapes: seq<Shape>, s: nat)
    requires s < |shapes|
    ensures Occurrences(shapes[..s + 1]) == Occurrences(shapes[..s]) + shapes[s].indices
  {
    assert shapes[..s + 1][..s] == shapes[..s];
  }

  /** One more occurrence adds one entry at the end of the index list. */
  lemma VertexIndicesSnoc(occ: seq<Index>, ix: Index)
    ensures VertexIndices(occ + [ix]) == VertexIndices(occ) + [ToUInt32(ix.vertexIndex)]
  {
    assert (occ + [ix])[..|occ|] == occ;
  }

  function PositionOf<T>(a: Attrib<T>, ix: Index): seq<T>
    requires InRange(a, ix)
  {
    a.vertices[3 * (ix.vertexIndex as int) .. 3 * (ix.vertexIndex as int) + 3]
  }

  function NormalOf<T>(a: Attrib<T>, ix: Index): seq<T>
    requires InRange(a, ix)
  {
    a.normals[3 * (ix.normalIndex as int) .. 3 * (ix.normalIndex as int) + 3]
  }

  function TexCoordOf<T>(a: Attrib<T>, ix: Index): seq<T>
    requires InRange(a, ix)
  {
    a.texcoords[2 * (ix.texcoordIndex as int) .. 2 * (ix.texcoordIndex as int) + 2]
  }

  /** The record of one occurrence: position, normal, texture coordinate. */
  function Record<T>(a: Attrib<T>, ix: Index): (r: seq<T>)
    requires InRange(a, ix)
    ensures |r| == 8
  {
    PositionOf(a, ix) + NormalOf(a, ix) + TexCoordOf(a, ix)
  }

  /** A record, float by float, in the order the constructor pushes them. */
  lemma RecordElements<T>(a: Attrib<T>, ix: Index)
    requires InRange(a, ix)
    ensures var vi, ni, ti := ix.vertexIndex as int, ix.normalIndex as int, ix.texcoordIndex as int;
            Record(a, ix) == [a.vertices[3 * vi], a.vertices[3 * vi + 1], a.vertices[3 * vi + 2],
                              a.normals[3 * ni], a.normals[3 * ni + 1], a.normals[3 * ni + 2],
                              a.texcoords[2 * ti], a.texcoords[2 * ti + 1]]
  {
  }

  /** The interleaved vertex buffer: one record per occurrence, in order. */
  function Interleave<T>(a: Attrib<T>, occ: seq<Index>): (r: seq<T>)
    requires AllInRange(a, occ)
    ensures |r| == 8 * |occ|
  {
    if |occ| == 0 then []
    else Interleave(a, occ[..|occ| - 1]) + Record(a, occ[|occ| - 1])
  }

  /** What the renderer's attribute pointer reads for vertex `k`: `attr.size`
      floats at `attr.offset` inside the k-th 8-float record. */
  function Fetch<T>(buf: seq<T>, k: nat, attr: Attribute): (r: seq<T>)
    requires attr.offset + attr.size <= 8
    requires 8 * k + 8 <= |buf|
    ensures |r| == attr.size
  {
    buf[8 * k + attr.offset .. 8 * k + attr.offset + attr.size]
  }

  /** One more occurrence adds its record at the end of the buffer. */
  lemma InterleaveSnoc<T>(a: Attrib<T>, occ: seq<Index>, ix: Index)
    requires AllInRange(a, occ) && InRange(a, ix)
    ensures AllInRange(a, occ + [ix])
    ensures Interleave(a, occ + [ix]) == Interleave(a, occ) + Record(a, ix)
  {
    assert (occ + [ix])[..|occ|] == occ;
  }

  /** The buffer holds whole records and the draw count `|buf| / 8` is the
      occurrence count. */
  lemma RecordCount<T>(a: Attrib<T>, occ: seq<Index>)
    requires AllInRange(a, occ)
    ensures |Interleave(a, occ)| % 8 == 0
    ensures |Interleave(a, occ)| / 8 == |occ|
  {
  }

  /** Reading the buffer with the renderer's layout gives back, for vertex
      `k`, exactly the pool entries its index triple addresses. */
  lemma {:induction false} InterleaveRecord<T>(a: Attrib<T>, occ: seq<Index>, k: nat)
    requires AllInRange(a, occ)
    requires k < |occ|
    ensures 8 * k + 8 <= |Interleave(a, occ)|
    ensures Fetch(Interleave(a, occ), k, PositionAttribute) == PositionOf(a, occ[k])
    ensures Fetch(Interleave(a, occ), k, NormalAttribute) == NormalOf(a, occ[k])
    ensures Fetch(Interleave(a, occ), k, TexCoordAttribute) == TexCoordOf(a, occ[k])
  {
    var n := |occ| - 1;
    var prefix := Interleave(a, occ[..n]);
    var rec := Record(a, occ[n]);
    assert Interleave(a, occ) == prefix + rec;
    var base := 8 * k;
    if k == n {
      assert |prefix| == base;
      var pos, nor, tex := PositionOf(a, occ[k]), NormalOf(a, occ[k]), TexCoordOf(a, occ[k]);
      assert rec == pos + nor + tex;
      SliceRight(prefix, rec, base, base + 3);
      SliceRight(prefix, rec, base + 3, base + 6);
      SliceRight(prefix, rec, base + 6, base + 8);
      SliceLeft(pos + nor, tex, 0, 3);
      SliceLeft(pos, nor, 0, 3);
      SliceLeft(pos + nor, tex, 3, 6);
      SliceRight(pos, nor, 3, 6);
      SliceRight(pos + nor, tex, 6, 8);
    } else {
      InterleaveRecord(a, occ[..n], k);
      SliceLeft(prefix, rec, base, base + 3);
      SliceLeft(prefix, rec, base + 3, base + 6);
      SliceLeft(prefix, rec, base + 6, base + 8);
    }
  }

  /** The two loops agree: record `k`'s position is the one that index-list
      entry `k` addresses. */
  lemma IndexedPosition<T>(a: Attrib<T>, occ: seq<Index>, k: nat)
    requires AllInRange(a, occ)
    requires k < |occ|
    ensures VertexIndices(occ)[k] as int == occ[k].vertexIndex as int
    ensures 3 * (VertexIndices(occ)[k] as int) + 3 <= |a.vertices|
    ensures 8 * k + 8 <= |Interleave(a, occ)|
    ensures var vi := VertexIndices(occ)[k] as int;
            Fetch(Interleave(a, occ), k, PositionAttribute) == a.vertices[3 * vi .. 3 * vi + 3]
  {
    assert occ[k] in occ;
    InterleaveRecord(a, occ, k);
  }

  /** Interleaving more occurrences only appends: the records already built
      are left as they are. */
  lemma {:induction false} InterleaveAppend<T>(a: Attrib<T>, p: seq<Index>, q: seq<Index>)
    requires AllInRange(a, p + q)
    ensures AllInRange(a, p) && AllInRange(a, q)
    ensures Interleave(a, p + q) == Interleave(a, p) + Interleave(a, q)
  {
    if |q| == 0 {
      assert p + q == p;
    } else {
      var m := |q| - 1;
      var init, last := q[..m], q[m];
      assert q == init + [last];
      assert p + q == (p + init) + [last];
      assert AllInRange(a, p + init) && InRange(a, last) by {
        assert forall ix :: ix in p + init ==> ix in p + q;
        assert last in p + q;
      }
      InterleaveAppend(a, p, init);
      InterleaveSnoc(a, p + init, last);
      InterleaveSnoc(a, init, last);
      calc {
        Interleave(a, p + q);
        Interleave(a, p + init) + Record(a, last);
        (Interleave(a, p) + Interleave(a, init)) + Record(a, last);
        { AppendAssoc(Interleave(a, p), Interleave(a, init), Record(a, last)); }
        Interleave(a, p) + Interleave(a, q);
      }
    }
  }

  /** Flattening more shapes only appends their occurrences. */
  lemma {:induction false} OccurrencesAppend(s1: seq<Shape>, s2: seq<Shape>)
    ensures Occurrences(s1 + s2) == Occurrences(s1) + Occurrences(s2)
  {
    if |s2| == 0 {
      assert s1 + s2 == s1;
    } else {
      var m := |s2| - 1;
      assert (s1 + s2)[..|s1 + s2| - 1] == s1 + s2[..m];
      assert (s1 + s2)[|s1 + s2| - 1] == s2[m];
      OccurrencesAppend(s1, s2[..m]);
      AppendAssoc(Occurrences(s1), Occurrences(s2[..m]), s2[m].indices);
    }
  }

  /** What the loops have built once the first `s` shapes are done is never
      changed by the later shapes: it is a prefix of the final index list and
      of the final vertex buffer. */
  lemma EarlierShapesPrefix<T>(a: Attrib<T>, shapes: seq<Shape>, s: nat)
    requires ShapesInRange(a, shapes)
    requires s <= |shapes|
    ensures AllInRange(a, Occurrences(shapes[..s])) && AllInRange(a, Occurrences(shapes))
    ensures VertexIndices(Occurrences(shapes[..s])) <= VertexIndices(Occurrences(shapes))
    ensures Interleave(a, Occurrences(shapes[..s])) <= Interleave(a, Occurrences(shapes))
  {
    assert shapes == shapes[..s] + shapes[s..];
    OccurrencesAppend(shapes[..s], shapes[s..]);
    OccurrencesInRange(a, shapes);
    InterleaveAppend(a, Occurrences(shapes[..s]), Occurrences(shapes[s..]));
    var early := Occurrences(shapes[..s]);
    var all := Occurrences(shapes);
    assert all[..|early|] == early;
    forall k | 0 <= k < |early|
      ensures VertexIndices(early)[k] == VertexIndices(all)[k]
    {
    }
  }

  /* Sequence facts the proofs above and the constructor loops use. */

  /** Visiting element `i` extends the visited prefix by that element. */
  lemma PrefixSnoc<X>(done: seq<X>, xs: seq<X>, i: nat)
    requires i < |xs|
    ensures done + xs[..i + 1] == (done + xs[..i]) + [xs[i]]
  {
    assert xs[..i + 1] == xs[..i] + [xs[i]];
  }

  lemma PrefixFull<X>(done: seq<X>, xs: seq<X>)
    ensures done + xs[..|xs|] == done + xs
  {
    assert xs[..|xs|] == xs;
  }

  lemma AppendAssoc<X>(x: seq<X>, y: seq<X>, z: seq<X>)
    ensures (x + y) + z == x + (y + z)
  {
  }

  lemma SliceLeft<X>(x: seq<X>, y: seq<X>, i: nat, j: nat)
    requires i <= j <= |x|
    ensures (x + y)[i..j] == x[i..j]
  {
  }

  lemma SliceRight<X>(x: seq<X>, y: seq<X>, i: nat, j: nat)
    requires |x| <= i <= j <= |x| + |y|
    ensures (x + y)[i..j] == y[i - |x| .. j - |x|]
  {
  }
}
