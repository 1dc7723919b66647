/** The in-memory byte stream (`io.BytesIO`) that `Camera.frames` reuses for
    every captured JPEG: a byte string and a current position. */
module BytesIO {

  type byte = b: int | 0 <= b < 256

  function Zeros(n: nat): (z: seq<byte>)
    ensures |z| == n && forall i :: 0 <= i < n ==> z[i] == 0
  {
    seq(n, _ => 0)
  }

  /** The contents after writing `x` at position `pos`: an empty write
      changes nothing; otherwise the bytes from `pos` on are overwritten, the
      rest is kept, and a gap between the old end and `pos` reads as zero
      bytes. */
  function Overwrite(data: seq<byte>, pos: nat, x: seq<byte>): (r: seq<byte>)
    ensures x == [] ==> r == data
    ensures x != [] ==> |r| == if pos + |x| <= |data| then |data| else pos + |x|
    ensures x != [] ==> r[pos..pos + |x|] == x
    ensures x != [] ==> forall i :: 0 <= i < pos ==> r[i] == if i < |data| then data[i] else 0
    ensures x != [] ==> forall i :: pos + |x| <= i < |r| ==> r[i] == data[i]
  {
    if x == [] then data
    else
      var before := if pos <= |data| then data[..pos] else data + Zeros(pos - |data|);
      var after := if pos + |x| < |data| then data[pos + |x|..] else [];
      before + x + after
  }

  class Buffer {
    var data: seq<byte>
    var pos: nat

    /** `io.BytesIO()`: empty, positioned at the start. */
    constructor ()
      ensures data == [] && pos == 0
    {
      data := [];
      pos := 0;
    }

    /** `write(x)`: overwrites from the current position and moves past `x`;
        an empty write changes nothing. */
    method Write(x: seq<byte>)
      modifies this
      ensures data == Overwrite(old(data), old(pos), x)
      ensures pos == old(pos) + |x|
    {
      data := Overwrite(data, pos, x);
      pos := pos + |x|;
    }

    /** `seek(offset)` from the start of the stream; the contents are kept. */
    method Seek(offset: nat)
      modifies this
      ensures pos == offset && data == old(data)
    {
      pos := offset;
    }

    /** `read()`: everything from the current position to the end, which
        becomes the new position; past the end it reads nothing. */
    method Read() returns (r: seq<byte>)
      modifies this
      ensures data == old(data)
      ensures old(pos) <= |data| ==> r == data[old(pos)..] && pos == |data|
      ensures old(pos) > |data| ==> r == [] && pos == old(pos)
    {
      if pos <= |data| {
        r := data[pos..];
        pos := |data|;
      } else {
        r := [];
      }
    }

    /** `truncate()`: cuts the contents at the current position (never
        extends them); the position is kept. */
    method Truncate()
      modifies this
      ensures data == if old(pos) < |old(data)| then old(data)[..old(pos)] else old(data)
      ensures pos == old(pos)
    {
      if pos < |data| {
        data := data[..pos];
      }
    }
  }

  /** A write into an empty stream at its start leaves exactly the bytes
      written. */
  lemma OverwriteEmpty(x: seq<byte>)
    ensures Overwrite([], 0, x) == x
  {
    if x != [] {
      var r := Overwrite([], 0, x);
      assert r == r[0..|x|];
    }
  }
}
