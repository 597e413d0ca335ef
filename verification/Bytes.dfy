/** Byte strings and little-endian numbers. */
module Bytes {

  type Byte = b: int | 0 <= b < 256

  function Pow256(width: nat): (p: nat)
    ensures p > 0
  {
    if width == 0 then 1 else 256 * Pow256(width - 1)
  }

  /** The number a little-endian field holds. */
  function Little(field: seq<Byte>): nat {
    if |field| == 0 then 0 else field[0] + 256 * Little(field[1..])
  }

  /** The little-endian field of a given width; larger numbers do not fit. */
  function Pack(n: nat, width: nat): (field: seq<Byte>)
    ensures |field| == width
  {
    if width == 0 then [] else [n % 256] + Pack(n / 256, width - 1)
  }

  lemma {:induction false} LittleOfPack(n: nat, width: nat)
    requires n < Pow256(width)
    ensures Little(Pack(n, width)) == n
  {
    if width > 0 {
      LittleOfPack(n / 256, width - 1);
    }
  }

  lemma {:induction false} PackOfLittle(field: seq<Byte>)
    ensures Little(field) < Pow256(|field|)
    ensures Pack(Little(field), |field|) == field
  {
    if |field| > 0 {
      PackOfLittle(field[1..]);
      assert Little(field) / 256 == Little(field[1..]);
      assert Little(field) % 256 == field[0];
    }
  }

  function Least(a: int, b: int): int {
    if a <= b then a else b
  }

  function Concat(pieces: seq<seq<Byte>>): seq<Byte> {
    if |pieces| == 0 then [] else pieces[0] + Concat(pieces[1..])
  }

  /** The number a big-endian field holds. */
  function Big(field: seq<Byte>): nat {
    if |field| == 0 then 0 else 256 * Big(field[..|field| - 1]) + field[|field| - 1]
  }

  /** The big-endian field of a given width. */
  function PackBig(n: nat, width: nat): (field: seq<Byte>)
    ensures |field| == width
  {
    if width == 0 then [] else PackBig(n / 256, width - 1) + [n % 256]
  }

  lemma {:induction false} BigOfPack(n: nat, width: nat)
    requires n < Pow256(width)
    ensures Big(PackBig(n, width)) == n
  {
    if width > 0 {
      BigOfPack(n / 256, width - 1);
      assert PackBig(n, width)[..width - 1] == PackBig(n / 256, width - 1);
    }
  }

  lemma Pow2And4()
    ensures Pow256(2) == 0x1_0000 && Pow256(4) == 0x1_0000_0000
  {
    assert Pow256(1) == 256 * Pow256(0);
    assert Pow256(2) == 256 * Pow256(1);
    assert Pow256(3) == 256 * Pow256(2);
  }

  lemma Within(audio: seq<Byte>, position: nat, end: nat, i: nat, j: nat)
    requires position <= end <= |audio| && i <= j <= end - position
    ensures audio[position..end][i..j] == audio[position + i..position + j]
  {
    var view := audio[position..end];
    var left, right := view[i..j], audio[position + i..position + j];
    assert forall k :: 0 <= k < j - i ==> left[k] == view[i + k] == right[k];
  }
}
