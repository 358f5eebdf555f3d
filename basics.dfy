/** Small shared vocabulary: an optional value, the firmware's `uint8_t`, and sequence identities. */
module Basics {

  datatype Option<T> = None | Some(value: T)

  /** An unsigned 8-bit value, as stored in `uint8_t` labels, pixels and serial bytes. */
  type Byte = x: int | 0 <= x < 256

  // ---------------------------------------------------------------------
  // Sequence identities the proofs cite by name

  lemma ConcatAssoc<T>(a: seq<T>, b: seq<T>, c: seq<T>)
    ensures (a + b) + c == a + (b + c)
  {
  }

  lemma EmptyConcat<T>(a: seq<T>)
    ensures [] + a == a
  {
  }

  lemma PairConcat<T>(x: T, y: T)
    ensures [x] + [y] == [x, y]
  {
  }

  lemma DropDrop<T>(s: seq<T>, i: nat, j: nat)
    requires i + j <= |s|
    ensures s[i..][j..] == s[i + j..]
  {
  }

  lemma DropTake<T>(s: seq<T>, i: nat, j: nat)
    requires i + j <= |s|
    ensures s[i..][..j] == s[i..i + j]
  {
  }

  lemma SplitThree<T>(d: seq<T>, sep: seq<T>, rest: seq<T>)
    ensures (d + sep + rest)[..|d|] == d
    ensures (d + sep + rest)[|d|..] == sep + rest
    ensures (d + sep + rest)[|d| + |sep|..] == rest
  {
  }
}
