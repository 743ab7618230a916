/** C strings and fixed-size character buffers.
    A byte is a char; a C string is a string without NUL; a buffer is a string in which
    the text ends at the first NUL. */
module CStrings {

  const NUL: char := '\0'

  predicate IsCString(s: string) {
    NUL !in s
  }

  /** The text held in a buffer: everything before the first NUL (strnlen). */
  function CStr(buf: string): (s: string)
    ensures IsCString(s)
    ensures |s| <= |buf| && s == buf[..|s|]
    ensures |s| < |buf| ==> buf[|s|] == NUL
  {
    if buf == [] || buf[0] == NUL then [] else [buf[0]] + CStr(buf[1..])
  }

  /** A field narrowed to its first n characters, as "%.*s" and snprintf do. */
  function Clip(s: string, n: nat): (r: string)
    ensures |r| <= n && r <= s
  {
    if |s| <= n then s else s[..n]
  }

  function Zeros(n: nat): (z: string)
    ensures |z| == n && forall i :: 0 <= i < n ==> z[i] == NUL
  {
    seq(n, _ => NUL)
  }

  /** strncpy(dest, src, n): the n bytes it stores. */
  function Strncpy(src: string, n: nat): (b: string)
    ensures |b| == n
  {
    Clip(src, n) + Zeros(n - |Clip(src, n)|)
  }

  lemma {:induction false} CStrUnique(buf: string, s: string)
    requires IsCString(s) && s <= buf
    requires |s| < |buf| ==> buf[|s|] == NUL
    ensures CStr(buf) == s
  {
    if s != [] {
      assert s[0] == buf[0] && s[0] in s;
      CStrUnique(buf[1..], s[1..]);
      assert s == [s[0]] + s[1..];
    }
  }

  lemma CStrShorter(buf: string)
    ensures |CStr(buf)| < |buf| <==> NUL in buf
  {
    if |CStr(buf)| == |buf| {
      assert CStr(buf) == buf;
    }
  }

  /** Text copied with strncpy is read back up to the size of the field. */
  lemma CStrOfStrncpy(src: string, n: nat)
    requires IsCString(src)
    ensures CStr(Strncpy(src, n)) == Clip(src, n)
  {
    CStrUnique(Strncpy(src, n), Clip(src, n));
  }

  /** strncpy into dest[off..off+n], byte by byte with zero fill. */
  method CopyField(dest: array<char>, off: nat, src: string, n: nat)
    requires off + n <= dest.Length
    modifies dest
    ensures dest[..] == old(dest[..off]) + Strncpy(src, n) + old(dest[off + n..])
  {
    for i := 0 to n
      invariant forall j :: 0 <= j < i ==> dest[off + j] == Strncpy(src, n)[j]
      invariant forall j :: 0 <= j < dest.Length && !(off <= j < off + i) ==> dest[j] == old(dest[j])
    {
      dest[off + i] := if i < |src| then src[i] else NUL;
    }
    assert forall j :: off <= j < off + n ==> dest[j] == Strncpy(src, n)[j - off];
  }
}
