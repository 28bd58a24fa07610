# Vanity prime search

A model of the vanity-prime handler of a small embedded HTTP service. A GET request carries a
vanity string at a fixed offset in its URI. The handler looks for a 1024-bit number whose
hexadecimal text begins with that string and which passes a probabilistic primality test.

The handler works in four steps:

- It rejects a vanity string longer than 256 characters. The rejection message names 1024,
  the bit length, as the limit, and the handler returns false.
- It copies the vanity string out of the URI, starting at offset 30.
- It makes at most `MAX_ATTEMPTS` (1000) attempts. Each attempt:
  - generates a prime and writes its hex text into a 1024-byte buffer;
  - copies the vanity bytes over the front of that buffer (the intended copy of
    `vanity_string_length` bytes; the copy as written takes more, see "## Findings");
  - reads the buffer back as a number and tests it for primality;
  - stops at the first test that passes.
- It reports either the buffer's text with the attempt count, or that the budget was spent.
  In both cases it returns true.

The model has three modules:

- `CString` (`cstring.dfy`): what `strlen`, `printf("%s")` and `mbedtls_mpi_read_string` read
  from a NUL-terminated character array.
- `Buffer` (`buffer.dfy`): the 1024-byte buffer as an `array<char>`. It holds the in-place
  write of a candidate and the in-place copy of the vanity bytes, each specified by a function
  on the buffer's contents.
- `VanityPrime` (`vanity_prime.dfy`): the constants, the attempt loop and the handler.
  - `FindVanityPrime` is a `while` loop over the locals `attempts` and `primeFound` and the
    array `buf`.
  - It is proved against the specification function `SearchFrom`, whose contract states the
    first-success rule.
  - `HandleGet` adds the length check, the copy and the choice of response.

The mbedtls library is foreign code and is represented by two oracles, which are parameters:

- `gen: nat -> seq<char>` is the hex text of the prime generated on attempt `k`. It stands for
  `mbedtls_mpi_gen_prime` followed by `mbedtls_mpi_write_string`. `ValidGenerator` requires
  each text to be exactly 256 hex digits. `mbedtls_mpi_gen_prime` sets the top bit of a
  1024-bit number, so its hex form has 256 digits.
- `test: (nat, seq<char>) -> bool` is the verdict on the buffer's text on attempt `k`, true
  when `mbedtls_mpi_is_prime` returns 0. It stands for `mbedtls_mpi_read_string` followed by
  `mbedtls_mpi_is_prime`. It takes the attempt number because `mbedtls_mpi_is_prime` draws
  its Miller–Rabin bases from the shared random generator, so the same text can get different
  verdicts on different attempts.

The attempt budget is a parameter of `HandleGet` so that a zero budget can be stated. The
server passes `MAX_ATTEMPTS` (1000).

Three points of the handler's behaviour:

- The code does not check that the vanity characters are hex digits, so there is no
  invalid-character rejection. `CandidateHexIff` shows that a non-hex vanity therefore makes
  every text handed to the parser non-hex.
- The code answers an over-long vanity by returning false and naming `VANITY_PRIME_LENGTH`
  (1024) as the limit. It does not report an attempt count of zero.
- Exhausting the budget is reported with a `400 Bad Request` text, yet the handler returns true.

## Model

| member | source | states |
|---|---|---|
| CString.CStrLen | embedded_cpp.cpp:86-91 | strlen: the count is at most the length, no character before it is NUL, and the character at it is NUL unless the string ends there |
| CString.CStrLenUnique | embedded_cpp.cpp:86-91 | any length with those three properties is the strlen of the string, so the characterisation is exact |
| CString.CStr | embedded_cpp.cpp:126 | the text read from a buffer is a NUL-free prefix of it, ended by a NUL or by the end of the buffer |
| CString.CStrOfTerminated | embedded_cpp.cpp:122-126 | a NUL-free text followed by a NUL reads back as that text, whatever follows the NUL |
| CString.CStrLenAppend | embedded_cpp.cpp:124 | strlen of a NUL-free text followed by more memory counts the whole text plus the memory up to its first NUL |
| Buffer.Written | embedded_cpp.cpp:122 | the buffer after the candidate text and its terminator are written keeps its 1024-byte size; `WrittenReadsBack` states what it reads back as |
| Buffer.Overlay | embedded_cpp.cpp:124 | the first len(vanity) bytes become the vanity bytes; every later byte is unchanged; the buffer keeps its size |
| Buffer.WrittenReadsBack | embedded_cpp.cpp:122-126 | writing a candidate text with its terminator and reading the buffer back gives the candidate text, whatever the buffer held before |
| Buffer.OverlaidText | embedded_cpp.cpp:122-126 | when the vanity is no longer than the candidate text, the text handed to the parser is the vanity followed by the candidate's remaining digits, whatever the buffer held before |
| Buffer.WriteDigits | embedded_cpp.cpp:122 | in place on the 1024-byte array: the new contents are the candidate digits, then a NUL, then the old bytes |
| Buffer.OverlayInPlace | embedded_cpp.cpp:124 | in place on the array, allowed only when the vanity fits in it: the new contents are the overlay of the old contents |
| Buffer.WriteAndOverlay | embedded_cpp.cpp:122-126 | one attempt on the array: the new contents are the overlay of the freshly written candidate, and the text read back is the vanity followed by the candidate's remaining digits |
| Buffer.OverlayAsWritten | embedded_cpp.cpp:124 | the copy as written, of strlen(vanity_string) bytes taken from the vanity array and the memory after it, keeps the buffer's size; `AsWrittenOverlayCounterexample` shows its effect |
| Buffer.AsWrittenCopiesPastVanity | embedded_cpp.cpp:124 | for the vanity array filled at lines 92-93, the copy length the code computes is at least len(vanity); it is greater exactly when the memory after the vanity array does not start with a NUL |
| Buffer.AsWrittenOverlayCounterexample | embedded_cpp.cpp:124 | with vanity "AB" followed in memory by '7' and a NUL, the text the code tests differs from the intended vanity overlay |
| VanityPrime.Candidate | embedded_cpp.cpp:120-126 | the text tested on attempt k is 256 characters long and begins with the vanity |
| VanityPrime.CandidateHexIff | embedded_cpp.cpp:91-93 | the tested text is all hex digits if and only if the vanity is |
| VanityPrime.SearchFrom | embedded_cpp.cpp:117-134 | a success is the first passing attempt, within 1..budget, and no earlier attempt passed; otherwise the count equals the budget and no attempt passed |
| VanityPrime.SearchStep | embedded_cpp.cpp:128-133 | a passing attempt ends the search with that candidate and its number; a failing one leaves the outcome to the later attempts |
| VanityPrime.SearchCharacterized | embedded_cpp.cpp:117-134 | any outcome that meets the first-success rule is the outcome SearchFrom gives |
| VanityPrime.MoreBudgetSameSuccess | embedded_cpp.cpp:117-133 | a larger budget does not change a successful search, so no later candidate matters once one passes |
| VanityPrime.FindVanityPrime | embedded_cpp.cpp:112-134 | the loop over `attempts`, `primeFound` and the array `buf` ends with attempts <= budget and with the outcome SearchFrom specifies; on success the reported value is the buffer's text |
| VanityPrime.HandleGet | embedded_cpp.cpp:86-150 | returns false with the too-long response iff strlen of the URI after offset 30 exceeds 256; otherwise searches with exactly that vanity and reports the found text with its count, or the budget with a count equal to the budget |

## Left out

- All HTTP output: the status lines, the echo of the vanity string and its length, and the
  prompt printed before the search. The response is a datatype value instead.
- Every other handler in the file, the server set-up and exit polling in `process()`, and
  daemon.cpp. These are plumbing or I/O.
- The mbedtls internals: entropy, CTR-DRBG seeding, prime generation, hex conversion and
  Miller–Rabin. They are the oracles `gen` and `test`. The oracles are ordinary functions of
  the attempt number, so a run of the model is deterministic for fixed oracles. The real
  random source is not.
- The global crypto contexts and their reuse by concurrent requests.
- VanityPrime.HandleGet: requires the URI to be at least 30 characters long. The code adds
  the offset to the URI pointer without checking it, so a shorter URI reads outside the string.
- VanityPrime.FindVanityPrime: requires every generated text to be exactly 256 hex digits.
  When the library calls succeed this holds: `mbedtls_mpi_gen_prime` sets the top bit of a
  1024-bit number and `mbedtls_mpi_write_string` writes whole bytes, giving 256 digits. Under
  it the terminator written after the candidate survives the overlay, so the contents of the
  buffer beyond it never reach the tested text.
- The handler ignores the return codes of `mbedtls_ctr_drbg_seed` (line 108),
  `mbedtls_mpi_gen_prime` (line 120) and `mbedtls_mpi_write_string` (line 122). These failures
  are not modelled. After one, the buffer holds whatever the number serialises to, which may be
  shorter than the vanity; the overlay then overwrites the terminator and earlier buffer
  contents reach the tested text.
- Buffer.OverlayInPlace, Buffer.WriteAndOverlay, VanityPrime.FindVanityPrime,
  VanityPrime.HandleGet: copy |vanity| bytes, the intended `vanity_string_length`, where line
  124 copies `strlen(vanity_string)` bytes. The copy as written is modelled separately; see
  the row in "## Findings".
- A failure of `mbedtls_mpi_read_string` on a non-hex vanity is not modelled separately. Its
  effect on the number is part of the `test` oracle.
- The overread in the code's copy length can also run past the end of the 1024-byte buffer.
  `Buffer.OverlayAsWritten` requires the copy to fit and does not model that overflow.

## Findings

| source | as written | input that shows it | evidently intended | confidence | as-written member | corrected member |
|---|---|---|---|---|---|---|
| embedded_cpp.cpp:124 | the copy length is `strlen(vanity_string)`, but `vanity_string` is a variable-length array with no NUL terminator, so `strlen` reads past it | vanity "AB" followed in memory by '7' and a NUL: three bytes are copied and the tested text starts "AB7" | copy `vanity_string_length` bytes | not executed | Buffer.OverlayAsWritten, Buffer.AsWrittenOverlayCounterexample | Buffer.OverlaidText |
