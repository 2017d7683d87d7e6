/** Shared value types. */
module Basics {

  datatype Option<+T> = None | Some(value: T)

  datatype Result<+T, +E> = Ok(value: T) | Err(error: E)

  type Bytes = seq<bv8>

  function Min(x: nat, y: nat): nat
  {
    if x < y then x else y
  }

  function Max(x: nat, y: nat): nat
  {
    if x < y then y else x
  }

  /** Pieces laid end to end. */
  function Flatten(pieces: seq<Bytes>): Bytes
  {
    if pieces == [] then [] else Flatten(pieces[..|pieces| - 1]) + pieces[|pieces| - 1]
  }

  lemma {:induction false} FlattenAppend(pieces: seq<Bytes>, piece: Bytes)
    ensures Flatten(pieces + [piece]) == Flatten(pieces) + piece
  {
    assert (pieces + [piece])[..|pieces|] == pieces;
  }

  /** Where piece `i` starts. */
  function Offset(pieces: seq<Bytes>, i: nat): nat
    requires i <= |pieces|
  {
    |Flatten(pieces[..i])|
  }

  lemma OffsetStep(pieces: seq<Bytes>, i: nat)
    requires i < |pieces|
    ensures Offset(pieces, i + 1) == Offset(pieces, i) + |pieces[i]|
  {
    assert pieces[..i + 1] == pieces[..i] + [pieces[i]];
    FlattenAppend(pieces[..i], pieces[i]);
  }

  /** Piece `i` is the slice between its offsets. */
  lemma {:induction false} PieceIsSlice(pieces: seq<Bytes>, i: nat)
    requires i < |pieces|
    ensures Offset(pieces, i) + |pieces[i]| <= |Flatten(pieces)|
    ensures Flatten(pieces)[Offset(pieces, i)..Offset(pieces, i) + |pieces[i]|] == pieces[i]
  {
    var n := |pieces| - 1;
    var front := pieces[..n];
    if i < n {
      PieceIsSlice(front, i);
      assert front[..i] == pieces[..i];
      var o := Offset(pieces, i);
      assert Flatten(pieces)[o..o + |pieces[i]|] == Flatten(front)[o..o + |pieces[i]|];
    }
  }
}
