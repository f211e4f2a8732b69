/** C character buffers and strings.
  *
  * A `char` stands for one byte. A buffer is any sequence; a C string is a
  * sequence without NUL, its terminator being implicit.
  */
module CText {

  const NUL: char := '\0'

  ghost predicate NulFree(s: string) {
    forall i :: 0 <= i < |s| ==> s[i] != NUL
  }

  /** What the C library sees of a buffer: everything before the first NUL. */
  function UpToNul(s: string): (r: string)
    ensures |r| <= |s| && r == s[..|r|] && NulFree(r)
    ensures |r| == |s| || s[|r|] == NUL
  {
    if s == [] || s[0] == NUL then [] else [s[0]] + UpToNul(s[1..])
  }

  /** The text that `snprintf(dst, cap, "%s", s)` leaves in `dst`. */
  function Cut(s: string, cap: nat): (r: string)
    requires cap >= 1
    ensures |r| <= cap - 1 && r <= s
    ensures r == s <==> |s| <= cap - 1
    ensures NulFree(s) ==> NulFree(r)
  {
    if |s| <= cap - 1 then s else s[..cap - 1]
  }

  /** No NUL-free prefix is longer than the visible text. */
  lemma {:induction false} UpToNulLongest(s: string, t: string)
    requires NulFree(t) && t <= s
    ensures t <= UpToNul(s)
  {
    if t != [] {
      assert s[0] == t[0];
      UpToNulLongest(s[1..], t[1..]);
    }
  }

  /** The visible text is determined by any prefix that ends at a NUL. */
  lemma UpToNulIs(s: string, t: string)
    requires NulFree(t) && t <= s
    requires |t| == |s| || s[|t|] == NUL
    ensures UpToNul(s) == t
  {
    UpToNulLongest(s, t);
    var r := UpToNul(s);
    assert forall i :: 0 <= i < |r| ==> s[i] == r[i] != NUL;
  }

  /** Appending the terminator adds nothing visible. */
  lemma UpToNulTerminated(s: string)
    ensures UpToNul(s + [NUL]) == UpToNul(s)
  {
    var t := UpToNul(s);
    assert t <= s + [NUL] && (s + [NUL])[|t|] == NUL;
    UpToNulIs(s + [NUL], t);
  }
}
