/** NUL-terminated character strings, as the handler reads them with strlen,
    mbedtls_mpi_read_string and printf's %s. */
module CString {

  /** The terminating character of a C string. */
  const Nul: char := 0 as char

  predicate NoNul(s: seq<char>)
  {
    forall i :: 0 <= i < |s| ==> s[i] != Nul
  }

  /** strlen: the number of characters before the first NUL, or the whole
      length when there is none. */
  function CStrLen(s: seq<char>): (n: nat)
    ensures n <= |s|
    ensures NoNul(s[..n])
    ensures n < |s| ==> s[n] == Nul
  {
    if s == [] || s[0] == Nul then 0
    else
      var m := CStrLen(s[1..]);
      assert s[..m + 1] == [s[0]] + s[1..][..m];
      m + 1
  }

  /** The text a C string denotes: everything before its first NUL. */
  function CStr(s: seq<char>): (r: seq<char>)
    ensures NoNul(r) && r <= s
    ensures |r| < |s| ==> s[|r|] == Nul
  {
    s[..CStrLen(s)]
  }

  /** The three properties in CStrLen's contract determine strlen: any length
      with a NUL-free prefix followed by a NUL (or the end) is CStrLen. */
  lemma {:induction false} CStrLenUnique(s: seq<char>, n: nat)
    requires n <= |s| && NoNul(s[..n])
    requires n < |s| ==> s[n] == Nul
    ensures CStrLen(s) == n
  {
    if n > 0 {
      assert s[0] == s[..n][0];
      assert s[1..][..n - 1] == s[..n][1..];
      CStrLenUnique(s[1..], n - 1);
    }
  }

  /** A NUL-free text followed by a NUL reads back as exactly that text. */
  lemma CStrOfTerminated(text: seq<char>, rest: seq<char>)
    requires NoNul(text)
    ensures CStr(text + [Nul] + rest) == text
  {
    var s := text + [Nul] + rest;
    assert s[..|text|] == text;
    CStrLenUnique(s, |text|);
  }

  /** strlen of a NUL-free text followed by more memory runs on into that
      memory: it counts the whole text and then what follows up to a NUL. */
  lemma {:induction false} CStrLenAppend(text: seq<char>, rest: seq<char>)
    requires NoNul(text)
    ensures CStrLen(text + rest) == |text| + CStrLen(rest)
  {
    var s := text + rest;
    var m := CStrLen(rest);
    assert s[..|text| + m] == text + rest[..m];
    assert |text| + m < |s| ==> s[|text| + m] == rest[m];
    CStrLenUnique(s, |text| + m);
  }
}
