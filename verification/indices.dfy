/** `scene::init_indices` of 19_assimpmodel.cpp: the index buffer of a
    mesh, made by appending the vertex indices of every face, face after
    face, each face's indices in their own order. */
module Indices {

  /** `unsigned int`, the element type of the index buffer. */
  newtype U32 = x: int | 0 <= x < 0x1_0000_0000

  /** `aiFace`: `mNumIndices` is the length of `mIndices`. */
  datatype Face = Face(indices: seq<U32>)

  /** The faces' index lists concatenated in face order: the reference
      the loop is checked against. */
  function Flatten(faces: seq<Face>): seq<U32>
  {
    if faces == [] then [] else faces[0].indices + Flatten(faces[1..])
  }

  /** The sum of the faces' `mNumIndices`. */
  function TotalSize(faces: seq<Face>): nat
  {
    if faces == [] then 0 else |faces[0].indices| + TotalSize(faces[1..])
  }

  /** Flattening one more face appends its indices. */
  lemma {:induction false} FlattenSnoc(faces: seq<Face>, f: Face)
    ensures Flatten(faces + [f]) == Flatten(faces) + f.indices
  {
    if faces == [] {
      assert [f][1..] == [];
    } else {
      assert (faces + [f])[1..] == faces[1..] + [f];
      FlattenSnoc(faces[1..], f);
    }
  }

  /** The flattened list is as long as all faces together. */
  lemma {:induction false} FlattenLength(faces: seq<Face>)
    ensures |Flatten(faces)| == TotalSize(faces)
  {
    if faces != [] {
      FlattenLength(faces[1..]);
    }
  }

  /** Index `j` of face `i` sits in the flattened list after the indices of
      the faces before face `i`: the order of faces and of indices within a
      face is kept. */
  lemma {:induction false} FlattenPosition(faces: seq<Face>, i: int, j: int)
    requires 0 <= i < |faces| && 0 <= j < |faces[i].indices|
    ensures TotalSize(faces[..i]) + j < |Flatten(faces)|
    ensures Flatten(faces)[TotalSize(faces[..i]) + j] == faces[i].indices[j]
  {
    FlattenLength(faces);
    if i == 0 {
      assert faces[..0] == [];
    } else {
      assert faces[1..][..i - 1] == faces[1..i];
      assert faces[..i] == [faces[0]] + faces[1..i];
      assert faces[..i][1..] == faces[1..i];
      FlattenPosition(faces[1..], i - 1, j);
    }
  }

  /** `init_indices(mesh)`: the two nested loops of the source, pushing
      each face's indices in turn. The result is `Flatten(faces)`, and its
      length is the total number of indices. */
  method InitIndices(faces: seq<Face>) returns (indices: seq<U32>)
    ensures indices == Flatten(faces)
    ensures |indices| == TotalSize(faces)
  {
    indices := [];
    var i := 0;
    while i < |faces|
      invariant 0 <= i <= |faces|
      invariant indices == Flatten(faces[..i])
    {
      var face := faces[i];
      var j := 0;
      while j < |face.indices|
        invariant 0 <= j <= |face.indices|
        invariant indices == Flatten(faces[..i]) + face.indices[..j]
      {
        indices := indices + [face.indices[j]];
        j := j + 1;
      }
      assert face.indices[..j] == face.indices;
      assert faces[..i + 1] == faces[..i] + [face];
      FlattenSnoc(faces[..i], face);
      i := i + 1;
    }
    assert faces[..i] == faces;
    FlattenLength(faces);
  }
}
