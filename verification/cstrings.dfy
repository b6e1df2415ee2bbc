/** C strings as the path matcher sees them. */
module CStrings {

  /** The characters of a NUL-terminated C string, without its terminator.
      A C string cannot hold a NUL before its end. */
  type CString = s: seq<char> | '\0' !in s

  /** The character the C code reads at offset `i`: index `|s|` is the
      terminating NUL. Reading beyond the terminator is not expressible. */
  function At(s: CString, i: nat): (c: char)
    requires i <= |s|
    ensures c == '\0' <==> i == |s|
  {
    if i < |s| then s[i] else '\0'
  }

  /** Offset `i` ends a path component: it holds `/` or the terminator. */
  predicate IsBoundary(s: CString, i: nat)
    requires i <= |s|
  {
    At(s, i) == '/' || At(s, i) == '\0'
  }
}
