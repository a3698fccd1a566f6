/**
 * DefaultHash<T>: the hash functor family. Integers hash to themselves, strings
 * and C strings to the sum of their character codes, and any other value to the
 * sum of the signed bytes of its object representation; every sum is taken in
 * uint32 arithmetic, so it wraps around modulo 2^32.
 */
module DefaultHash {
  import opened Prelude

  /** hash += x with a uint32 accumulator: the sum wraps modulo 2^32 (x may be negative). */
  function AddWrapping(hash: uint32, x: int): uint32
  {
    (hash + x) % UINT32_LIMIT
  }

  /** The accumulation loop `for each x: hash += x`, starting from hash. */
  function Accumulate(hash: uint32, xs: seq<int>): uint32
    decreases |xs|
  {
    if xs == [] then hash else Accumulate(AddWrapping(hash, xs[0]), xs[1..])
  }

  /** The plain (unbounded) sum of a sequence of integers. */
  function Sum(xs: seq<int>): int
    decreases |xs|
  {
    if xs == [] then 0 else xs[0] + Sum(xs[1..])
  }

  /** Reducing modulo 2^32 once more after adding does not change the residue. */
  lemma {:induction false} ModAddLeft(a: int, b: int)
    ensures (a % UINT32_LIMIT + b) % UINT32_LIMIT == (a + b) % UINT32_LIMIT
  {
    var q := a / UINT32_LIMIT;
    assert a == q * UINT32_LIMIT + a % UINT32_LIMIT;
    ModShift(a % UINT32_LIMIT + b, q);
  }

  /** Adding a multiple of 2^32 does not change the residue. */
  lemma {:induction false} ModShift(x: int, q: int)
    ensures (x + q * UINT32_LIMIT) % UINT32_LIMIT == x % UINT32_LIMIT
  {
    var r := x % UINT32_LIMIT;
    var d := x / UINT32_LIMIT;
    assert x + q * UINT32_LIMIT == (d + q) * UINT32_LIMIT + r;
  }

  /** Wrapping at every step is the same as summing exactly and wrapping once. */
  lemma {:induction false} AccumulateIsWrappedSum(hash: uint32, xs: seq<int>)
    ensures Accumulate(hash, xs) == (hash + Sum(xs)) % UINT32_LIMIT
    decreases |xs|
  {
    if xs == [] {
    } else {
      AccumulateIsWrappedSum(AddWrapping(hash, xs[0]), xs[1..]);
      ModAddLeft(hash + xs[0], Sum(xs[1..]));
    }
  }

  /** DefaultHash<int>: the integer itself, converted to uint32. */
  function IntHash(x: int32): (r: uint32)
    ensures 0 <= x ==> r == x
    ensures x < 0 ==> r == x + UINT32_LIMIT
  {
    x % UINT32_LIMIT
  }

  /** The character codes of a string, in order. */
  function Codes(s: string): (r: seq<int>)
    ensures |r| == |s| && forall i :: 0 <= i < |s| ==> r[i] == s[i] as int
  {
    seq(|s|, i requires 0 <= i < |s| => s[i] as int)
  }

  /** DefaultHash<std::string>: the sum of the character codes, in uint32 arithmetic. */
  function StringHash(s: string): uint32
  {
    Accumulate(0, Codes(s))
  }

  /** The string hash is the exact sum of the codes, reduced modulo 2^32. */
  lemma StringHashIsSumOfCodes(s: string)
    ensures StringHash(s) == Sum(Codes(s)) % UINT32_LIMIT
  {
    AccumulateIsWrappedSum(0, Codes(s));
  }

  /** The characters of a C string: the memory up to, not including, the first NUL. */
  function CString(memory: seq<char>): (r: seq<char>)
    ensures |r| <= |memory| && r == memory[..|r|]
    ensures '\0' !in r
    ensures |r| < |memory| ==> memory[|r|] == '\0'
    decreases |memory|
  {
    if memory == [] || memory[0] == '\0' then [] else [memory[0]] + CString(memory[1..])
  }

  /** DefaultHash<char*>: the string hash of the characters before the terminator. */
  function CStringHash(memory: seq<char>): uint32
  {
    StringHash(CString(memory))
  }

  /** A NUL-terminated copy of a string hashes, as char*, to the string's own hash. */
  lemma CStringHashMatchesStringHash(s: string, rest: seq<char>)
    requires '\0' !in s
    ensures CStringHash(s + ['\0'] + rest) == StringHash(s)
  {
    CStringOfTerminated(s, rest);
  }

  lemma {:induction false} CStringOfTerminated(s: string, rest: seq<char>)
    requires '\0' !in s
    ensures CString(s + ['\0'] + rest) == s
    decreases |s|
  {
    if s == [] {
      assert (s + ['\0'] + rest)[0] == '\0';
    } else {
      assert (s + ['\0'] + rest)[1..] == s[1..] + ['\0'] + rest;
      assert s[0] in s;
      CStringOfTerminated(s[1..], rest);
    }
  }

  /** The generic DefaultHash<T>: the sum of the object representation's bytes, read as int8. */
  function GenericHash(representation: seq<int8>): uint32
  {
    Accumulate(0, representation)
  }

  /** The generic hash is the exact signed byte sum, reduced modulo 2^32. */
  lemma GenericHashIsByteSum(representation: seq<int8>)
    ensures GenericHash(representation) == Sum(representation) % UINT32_LIMIT
  {
    AccumulateIsWrappedSum(0, representation);
  }

  /** The string test: "hello" hashes to 'h' + 'e' + 'l' + 'l' + 'o'. */
  lemma HelloHash()
    ensures StringHash("hello") == 'h' as int + 'e' as int + 'l' as int + 'l' as int + 'o' as int
  {
    StringHashIsSumOfCodes("hello");
    assert Codes("hello") == ['h' as int, 'e' as int, 'l' as int, 'l' as int, 'o' as int];
  }

  /** The integer test: 1 hashes to 1u. */
  lemma OneHash()
    ensures IntHash(1) == 1
  {
  }
}
