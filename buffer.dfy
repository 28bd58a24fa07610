/** The handler's text buffer `buf` (embedded_cpp.cpp:104): the hex text of a
    candidate is written into it, then the vanity bytes are copied over its
    front, and the result is read back as a C string. */
module Buffer {
  import opened CString

  /** VANITY_PRIME_LENGTH: the size of the text buffer in bytes. */
  const BufSize: nat := 1024

  /** The buffer after mbedtls_mpi_write_string has stored `digits` followed by
      a NUL terminator at its front; the bytes after the terminator keep
      whatever the buffer held before. */
  function Written(buf: seq<char>, digits: seq<char>): (r: seq<char>)
    requires |digits| < |buf|
    ensures |r| == |buf|
  {
    digits + [Nul] + buf[|digits| + 1..]
  }

  /** The overlay: the first |vanity| bytes become the vanity bytes, every
      other byte is left as it was. */
  function Overlay(buf: seq<char>, vanity: seq<char>): (r: seq<char>)
    requires |vanity| <= |buf|
    ensures |r| == |buf|
    ensures forall i :: 0 <= i < |r| ==> r[i] == if i < |vanity| then vanity[i] else buf[i]
  {
    vanity + buf[|vanity|..]
  }

  /** Writing a NUL-free candidate text and reading the buffer back as a C
      string gives that text, whatever the buffer held before. */
  lemma WrittenReadsBack(buf: seq<char>, digits: seq<char>)
    requires |digits| < |buf| && NoNul(digits)
    ensures CStr(Written(buf, digits)) == digits
  {
    CStrOfTerminated(digits, buf[|digits| + 1..]);
  }

  /** The text the handler hands to mbedtls_mpi_read_string: as long as the
      vanity is no longer than the candidate's text, the terminator written
      after the candidate survives the overlay, so the text is the vanity
      followed by the candidate's remaining digits, whatever the buffer held
      before. */
  lemma OverlaidText(buf: seq<char>, digits: seq<char>, vanity: seq<char>)
    requires |digits| < |buf| && |vanity| <= |digits|
    requires NoNul(digits) && NoNul(vanity)
    ensures CStr(Overlay(Written(buf, digits), vanity)) == vanity + digits[|vanity|..]
  {
    var text := vanity + digits[|vanity|..];
    var rest := buf[|digits| + 1..];
    assert Overlay(Written(buf, digits), vanity) == text + [Nul] + rest;
    assert NoNul(text) by {
      forall i | 0 <= i < |text|
        ensures text[i] != Nul
      {
        if i >= |vanity| {
          assert text[i] == digits[i];
        }
      }
    }
    CStrOfTerminated(text, rest);
  }

  /** mbedtls_mpi_write_string into `buf`: the digits, then the terminator. */
  method WriteDigits(buf: array<char>, digits: seq<char>)
    requires |digits| < buf.Length
    modifies buf
    ensures buf[..] == Written(old(buf[..]), digits)
  {
    forall i | 0 <= i < |digits| {
      buf[i] := digits[i];
    }
    buf[|digits|] := Nul;
  }

  /** The memcpy of the vanity bytes onto the front of `buf`; it stays inside
      the buffer because the vanity is no longer than the buffer. */
  method OverlayInPlace(buf: array<char>, vanity: seq<char>)
    requires |vanity| <= buf.Length
    modifies buf
    ensures buf[..] == Overlay(old(buf[..]), vanity)
  {
    forall i | 0 <= i < |vanity| {
      buf[i] := vanity[i];
    }
  }

  /** One attempt's work on the buffer: write the candidate text, copy the
      vanity over its front, and return the text mbedtls_mpi_read_string
      then reads, which is the vanity followed by the candidate's remaining
      digits. */
  method WriteAndOverlay(buf: array<char>, digits: seq<char>, vanity: seq<char>) returns (text: seq<char>)
    requires |digits| < buf.Length && |vanity| <= |digits|
    requires NoNul(digits) && NoNul(vanity)
    modifies buf
    ensures buf[..] == Overlay(Written(old(buf[..]), digits), vanity)
    ensures text == CStr(buf[..]) == vanity + digits[|vanity|..]
  {
    ghost var before := buf[..];
    WriteDigits(buf, digits);
    OverlayInPlace(buf, vanity);
    text := CStr(buf[..]);
    OverlaidText(before, digits, vanity);
  }

  /** The overlay as the handler writes it: the copy length is strlen of the
      vanity array, which holds no terminator, so strlen reads on into the
      memory `beyond` that follows the array and the copy takes those bytes
      too, up to the first NUL there. */
  function OverlayAsWritten(buf: seq<char>, vanity: seq<char>, beyond: seq<char>): (r: seq<char>)
    requires CStrLen(vanity + beyond) <= |buf|
    ensures |r| == |buf|
  {
    Overlay(buf, (vanity + beyond)[..CStrLen(vanity + beyond)])
  }

  /** The copy the handler makes is longer than the vanity exactly when the
      memory after the vanity array does not start with a NUL. */
  lemma AsWrittenCopiesPastVanity(vanity: seq<char>, beyond: seq<char>)
    requires NoNul(vanity)
    ensures CStrLen(vanity + beyond) >= |vanity|
    ensures CStrLen(vanity + beyond) > |vanity| <==> beyond != [] && beyond[0] != Nul
  {
    CStrLenAppend(vanity, beyond);
  }

  /** A concrete run of the copy as written: vanity "AB", followed in memory
      by the byte '7' and a NUL. The text handed to the primality test then
      starts "AB7" instead of the vanity followed by the candidate's own third
      digit. */
  lemma AsWrittenOverlayCounterexample(buf: seq<char>, digits: seq<char>)
    requires |buf| == BufSize && |digits| == 256
    requires forall i :: 0 <= i < |digits| ==> digits[i] == 'F'
    ensures CStr(OverlayAsWritten(Written(buf, digits), ['A', 'B'], ['7', Nul]))
         != CStr(Overlay(Written(buf, digits), ['A', 'B']))
  {
    var vanity, beyond := ['A', 'B'], ['7', Nul];
    assert NoNul(vanity);
    CStrLenAppend(vanity, beyond);
    assert CStrLen(beyond) == 1;
    var copied := (vanity + beyond)[..3];
    assert copied == ['A', 'B', '7'];
    OverlaidText(buf, digits, copied);
    OverlaidText(buf, digits, vanity);
    assert (copied + digits[3..])[2] == '7';
    assert (vanity + digits[2..])[2] == 'F';
  }
}
