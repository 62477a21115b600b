/** bytes.Reader under binary.Read: a read either fills its target or leaves it alone. */
module Reader {
  import opened Bytes

  datatype ReadError = NoError | EOF | UnexpectedEOF

  /** What io.ReadFull reports for a read of n bytes with `left` bytes to come; an empty read never fails. */
  function Outcome(n: nat, left: nat): ReadError {
    if n <= left then NoError else if left == 0 then EOF else UnexpectedEOF
  }

  class ByteReader {
    const data: seq<byte>
    var pos: nat

    ghost predicate Valid()
      reads this
    {
      pos <= |data|
    }

    ghost function Rest(): seq<byte>
      requires Valid()
      reads this
    {
      data[pos..]
    }

    constructor (data: seq<byte>)
      ensures Valid() && Rest() == data && this.data == data
    {
      this.data := data;
      pos := 0;
    }

    /** A short read still eats what is left: the reader ends up empty and the target unset. */
    method ReadFull(n: nat) returns (err: ReadError, got: seq<byte>)
      requires Valid()
      modifies this`pos
      ensures Valid()
      ensures err == Outcome(n, |old(Rest())|)
      ensures err == NoError ==> got == old(Rest())[..n] && Rest() == old(Rest())[n..]
      ensures err != NoError ==> got == [] && Rest() == []
    {
      var left := |data| - pos;
      if n <= left {
        got := data[pos..pos + n];
        pos := pos + n;
        err := NoError;
      } else {
        err := if left == 0 then EOF else UnexpectedEOF;
        got := [];
        pos := |data|;
      }
    }
  }
}
