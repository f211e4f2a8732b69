/** `snprintf` into the rest of a buffer, at a moving offset. */
module Printing {
  import opened CText

  /** The buffer shows `text`, cut to its size and terminated. */
  ghost predicate Shows(buf: array<char>, text: string)
    reads buf
  {
    && buf.Length >= 1
    && var t := Cut(text, buf.Length);
       buf[..|t|] == t && buf[|t|] == NUL
  }

  /** One `snprintf`: where it starts, how much room it was told, what it has
    * to write. */
  datatype Call = Call(off: nat, room: nat, len: nat)

  /** `buf_size - offset` in unsigned 64-bit arithmetic. */
  function Room(size: nat, off: nat): nat {
    if off <= size then size - off else (size - off) % 0x1_0000_0000_0000_0000
  }

  /** Appends `text` at offset `off`, where the text before it ends, and returns
    * its whole length, whether or not it fitted. Without room nothing is
    * written. */
  method Append(buf: array<char>, off: nat, text: string, ghost before: string)
    returns (n: nat, ghost call: Call)
    requires |before| == off && buf.Length >= 1
    requires off == 0 || Shows(buf, before)
    modifies buf
    ensures n == |text| && Shows(buf, before + text)
    ensures call == Call(off, Room(buf.Length, off), |text|)
  {
    ghost var all := before + text;
    if off < buf.Length {
      var k := 0;
      while k < |text| && off + k < buf.Length - 1
        invariant k <= |text| && off + k <= buf.Length - 1
        invariant buf[..off + k] == all[..off + k]
      {
        buf[off + k] := text[k];
        k := k + 1;
      }
      buf[off + k] := NUL;
      assert Cut(all, buf.Length) == all[..off + k];
    } else {
      assert Cut(all, buf.Length) == Cut(before, buf.Length);
    }
    return |text|, Call(off, Room(buf.Length, off), |text|);
  }

  /** A buffer that shows a NUL-free text which fits holds exactly that text. */
  lemma ShowsWhole(buf: array<char>, text: string)
    requires Shows(buf, text) && NulFree(text) && |text| < buf.Length
    ensures UpToNul(buf[..]) == text
  {
    UpToNulIs(buf[..], text);
  }
}
