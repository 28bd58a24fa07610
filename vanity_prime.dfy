/** VanityPrimeHandler::handleGet: reject an over-long vanity string, copy it
    out of the request URI, then generate candidates, overlay the vanity onto
    the front of each one's hex text and test it for primality, for at most a
    fixed number of attempts. */
module VanityPrime {
  import opened CString
  import opened Buffer

  /** INDENT: offset of the vanity string within the request URI. */
  const Indent: nat := 30
  /** VANITY_PRIME_LENGTH: the bit length of each candidate. */
  const VanityPrimeLength: nat := 1024
  /** The longest vanity string the handler accepts. */
  const MaxVanityLength: nat := 256
  /** Hex digits of a VanityPrimeLength-bit number whose top bit is set. */
  const CandidateDigits: nat := VanityPrimeLength / 4

  /** A digit mbedtls_mpi_read_string accepts in base 16. */
  predicate IsHexDigit(c: char)
  {
    '0' <= c <= '9' || 'a' <= c <= 'f' || 'A' <= c <= 'F'
  }

  predicate IsHexText(s: seq<char>)
  {
    forall i :: 0 <= i < |s| ==> IsHexDigit(s[i])
  }

  /** mbedtls_mpi_gen_prime followed by mbedtls_mpi_write_string, seen as the
      hex text produced on each attempt (attempts are numbered from 1). */
  type Generator = nat -> seq<char>

  /** mbedtls_mpi_read_string followed by mbedtls_mpi_is_prime, seen as a
      verdict on the text in the buffer on a given attempt: true when is_prime
      returns 0. The attempt number is an argument because is_prime draws its
      bases from the shared random generator, so the same text may get
      different verdicts on different attempts. */
  type PrimalityTest = (nat, seq<char>) -> bool

  /** Every candidate text is the hex form of a VanityPrimeLength-bit number. */
  ghost predicate ValidGenerator(gen: Generator)
  {
    forall k: nat :: |gen(k)| == CandidateDigits && IsHexText(gen(k))
  }

  /** The outcome of the attempt loop. */
  datatype SearchResult =
    | Found(value: seq<char>, attempts: nat)
    | Exhausted(attempts: nat)

  /** What the handler answers. */
  datatype Response =
    | VanityTooLong(namedLimit: nat)
    | VanityPrimeFound(vanity: seq<char>, value: seq<char>, attempts: nat)
    | AttemptsExceeded(namedLimit: nat, attempts: nat)

  /** The text the primality test sees on attempt k: the candidate text with
      its leading digits replaced by the vanity. */
  function Candidate(vanity: seq<char>, gen: Generator, k: nat): (r: seq<char>)
    requires ValidGenerator(gen) && |vanity| <= MaxVanityLength
    ensures |r| == CandidateDigits && vanity <= r
  {
    vanity + gen(k)[|vanity|..]
  }

  /** The candidate text passes for hex exactly when the vanity does: the
      handler checks no character of the vanity, so a non-hex vanity reaches
      mbedtls_mpi_read_string on every attempt. */
  lemma CandidateHexIff(vanity: seq<char>, gen: Generator, k: nat)
    requires ValidGenerator(gen) && |vanity| <= MaxVanityLength
    ensures IsHexText(Candidate(vanity, gen, k)) <==> IsHexText(vanity)
  {
    var c := Candidate(vanity, gen, k);
    if IsHexText(vanity) {
      forall i | 0 <= i < |c|
        ensures IsHexDigit(c[i])
      {
        if i >= |vanity| {
          assert c[i] == gen(k)[i];
        }
      }
    }
    if IsHexText(c) {
      forall i | 0 <= i < |vanity|
        ensures IsHexDigit(vanity[i])
      {
        assert c[i] == vanity[i];
      }
    }
  }

  /** The attempt loop from attempt k on, with `budget` attempts in all: it
      stops at the first candidate that passes the test, or reports the whole
      budget spent. */
  function SearchFrom(vanity: seq<char>, gen: Generator, test: PrimalityTest, k: nat, budget: nat): (r: SearchResult)
    requires ValidGenerator(gen) && |vanity| <= MaxVanityLength
    requires 1 <= k <= budget + 1
    ensures r.Found? ==>
      && k <= r.attempts <= budget
      && r.value == Candidate(vanity, gen, r.attempts)
      && test(r.attempts, r.value)
      && forall j :: k <= j < r.attempts ==> !test(j, Candidate(vanity, gen, j))
    ensures r.Exhausted? ==>
      && r.attempts == budget
      && forall j :: k <= j <= budget ==> !test(j, Candidate(vanity, gen, j))
    decreases budget + 1 - k
  {
    if k > budget then Exhausted(budget)
    else if test(k, Candidate(vanity, gen, k)) then Found(Candidate(vanity, gen, k), k)
    else SearchFrom(vanity, gen, test, k + 1, budget)
  }

  /** The contract of SearchFrom pins its result down: any outcome that stops
      at the first passing candidate, or spends the whole budget when none
      passes, is the one SearchFrom gives. */
  lemma SearchCharacterized(vanity: seq<char>, gen: Generator, test: PrimalityTest, budget: nat, r: SearchResult)
    requires ValidGenerator(gen) && |vanity| <= MaxVanityLength
    requires r.Found? ==>
      && 1 <= r.attempts <= budget
      && r.value == Candidate(vanity, gen, r.attempts)
      && test(r.attempts, r.value)
      && forall j :: 1 <= j < r.attempts ==> !test(j, Candidate(vanity, gen, j))
    requires r.Exhausted? ==>
      && r.attempts == budget
      && forall j :: 1 <= j <= budget ==> !test(j, Candidate(vanity, gen, j))
    ensures SearchFrom(vanity, gen, test, 1, budget) == r
  {
  }

  /** A larger budget does not change a search that succeeded: the loop stops
      at the first passing candidate and never looks at later ones. */
  lemma {:induction false} MoreBudgetSameSuccess(vanity: seq<char>, gen: Generator, test: PrimalityTest, k: nat, budget: nat, larger: nat)
    requires ValidGenerator(gen) && |vanity| <= MaxVanityLength
    requires 1 <= k <= budget + 1 && budget <= larger
    requires SearchFrom(vanity, gen, test, k, budget).Found?
    ensures SearchFrom(vanity, gen, test, k, larger) == SearchFrom(vanity, gen, test, k, budget)
    decreases budget + 1 - k
  {
    if !test(k, Candidate(vanity, gen, k)) {
      MoreBudgetSameSuccess(vanity, gen, test, k + 1, budget, larger);
    }
  }

  /** One attempt of the loop: attempt k either passes, and the search
      stops there, or fails, and the search goes on from attempt k + 1. */
  lemma SearchStep(vanity: seq<char>, gen: Generator, test: PrimalityTest, k: nat, budget: nat)
    requires ValidGenerator(gen) && |vanity| <= MaxVanityLength
    requires 1 <= k <= budget
    ensures test(k, Candidate(vanity, gen, k)) ==>
      SearchFrom(vanity, gen, test, k, budget) == Found(Candidate(vanity, gen, k), k)
    ensures !test(k, Candidate(vanity, gen, k)) ==>
      SearchFrom(vanity, gen, test, k, budget) == SearchFrom(vanity, gen, test, k + 1, budget)
  {
  }

  /** The loop of handleGet: `attempts` counts up from 0, each attempt writes a
      fresh candidate into the buffer, overlays the vanity and tests the
      buffer's text, and the loop stops at the first pass or when the budget
      is spent. `value` is the buffer's text when a prime was found, the
      text the handler prints. */
  method FindVanityPrime(vanity: seq<char>, gen: Generator, test: PrimalityTest, budget: nat)
    returns (primeFound: bool, attempts: nat, value: seq<char>)
    requires ValidGenerator(gen) && |vanity| <= MaxVanityLength && NoNul(vanity)
    ensures attempts <= budget
    ensures primeFound ==> SearchFrom(vanity, gen, test, 1, budget) == Found(value, attempts)
    ensures !primeFound ==> SearchFrom(vanity, gen, test, 1, budget) == Exhausted(attempts)
  {
    var buf := new char[BufSize];
    primeFound := false;
    attempts := 0;
    value := [];
    ghost var search := SearchFrom(vanity, gen, test, 1, budget);
    while !primeFound && attempts < budget
      invariant buf.Length == BufSize
      invariant attempts <= budget
      invariant primeFound ==> 1 <= attempts && CStr(buf[..]) == Candidate(vanity, gen, attempts)
      invariant primeFound ==> search == Found(Candidate(vanity, gen, attempts), attempts)
      invariant !primeFound ==> search == SearchFrom(vanity, gen, test, attempts + 1, budget)
      decreases budget - attempts
    {
      attempts := attempts + 1;
      var text := WriteAndOverlay(buf, gen(attempts), vanity);
      SearchStep(vanity, gen, test, attempts, budget);
      assert text == Candidate(vanity, gen, attempts);
      if test(attempts, text) {
        primeFound := true;
      }
    }
    if primeFound {
      value := CStr(buf[..]);
    }
  }

  /** The response for a search outcome: the found text with its attempt
      count, or the budget that was spent with the count reached. */
  function Report(vanity: seq<char>, outcome: SearchResult, budget: nat): Response
  {
    match outcome
    case Found(value, n) => VanityPrimeFound(vanity, value, n)
    case Exhausted(n) => AttemptsExceeded(budget, n)
  }

  /** handleGet: reject a vanity string longer than MaxVanityLength (the
      message names VanityPrimeLength as the limit and the handler returns
      false); otherwise copy it out of the URI, search with `budget` attempts
      (MAX_ATTEMPTS, 1000, on the server) and report the outcome, returning true. */
  method HandleGet(uri: seq<char>, gen: Generator, test: PrimalityTest, budget: nat)
    returns (handled: bool, response: Response)
    requires Indent <= |uri|
    requires ValidGenerator(gen)
    ensures handled <==> CStrLen(uri[Indent..]) <= MaxVanityLength
    ensures !handled ==> response == VanityTooLong(VanityPrimeLength)
    ensures handled ==>
      response == Report(CStr(uri[Indent..]), SearchFrom(CStr(uri[Indent..]), gen, test, 1, budget), budget)
  {
    var length := CStrLen(uri[Indent..]);
    if length > MaxVanityLength {
      return false, VanityTooLong(VanityPrimeLength);
    }
    var vanity := uri[Indent..Indent + length];
    assert vanity == CStr(uri[Indent..]);
    var primeFound, attempts, value := FindVanityPrime(vanity, gen, test, budget);
    response := Report(vanity, if primeFound then Found(value, attempts) else Exhausted(attempts), budget);
    handled := true;
  }
}
