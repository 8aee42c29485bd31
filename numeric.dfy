/** The string scrubbing step of tripoints: `conditionAsNumeric` erases, in
    place and walking backwards, every character that cannot be part of a
    number, so that `atof` can read what is left.

    `std::string::size_type` is an unsigned 64-bit integer here, `npos` is its
    largest value, and `ptr--` on 0 wraps round to `npos`; all three are
    written out below. The macro `CHARS_NUMERIC` lives in a header that is not
    part of this model, so it is the parameter `numeric` throughout.
 */
module Numeric {

  /** `std::string::npos`: the largest `size_type`. */
  const NPOS: nat := 0xFFFF_FFFF_FFFF_FFFF

  /** `std::string::size_type`, an unsigned integer. */
  type SizeType = n: nat | n <= NPOS

  /** A `std::string`: its length is always below `npos` (`max_size()` is
      smaller than `npos`), so a position can never be confused with `npos`. */
  type StdString = s: string | |s| < NPOS

  /** `ptr--` on an unsigned `size_type`: one less, modulo 2^64. */
  function Dec(p: SizeType): (r: SizeType)
    ensures (r + 1) % (NPOS + 1) == p
  {
    if p == 0 then NPOS else p - 1
  }

  /** `chars_num`: the characters `CHARS_NUMERIC` followed by ",.-". */
  function CharsNum(numeric: string): (cs: string)
    ensures forall c :: c in cs <==> c in numeric || c == ',' || c == '.' || c == '-'
  {
    numeric + ",.-"
  }

  /** The position of the last character among the first `n` of `s` that is
      not in `chars`, or NPOS when there is none. */
  function LastNotIn(s: StdString, chars: string, n: nat): (r: SizeType)
    requires n <= |s|
    ensures r == NPOS <==> forall k :: 0 <= k < n ==> s[k] in chars
    ensures r != NPOS ==> r < n && s[r] !in chars && forall k :: r < k < n ==> s[k] in chars
    decreases n
  {
    if n == 0 then NPOS
    else if s[n - 1] !in chars then n - 1
    else LastNotIn(s, chars, n - 1)
  }

  /** `s.find_last_not_of(chars, pos)`: the last position at or before `pos`
      whose character is not in `chars`; a `pos` past the end searches the
      whole string; NPOS when every searched character is in `chars`. */
  function FindLastNotOf(s: StdString, chars: string, pos: SizeType): (r: SizeType)
    ensures r == NPOS <==> forall k :: 0 <= k < |s| && k <= pos ==> s[k] in chars
    ensures r != NPOS ==> r < |s| && r <= pos && s[r] !in chars
    ensures forall k :: r < k < |s| && k <= pos ==> s[k] in chars
  {
    if |s| == 0 then NPOS
    else LastNotIn(s, chars, if pos < |s| then pos + 1 else |s|)
  }

  /** The characters of `s` that are in `chars`, in their original order. */
  function Filter(s: string, chars: string): (r: string)
    ensures |r| <= |s|
    ensures forall k :: 0 <= k < |r| ==> r[k] in chars
  {
    if s == [] then []
    else (if s[0] in chars then [s[0]] else []) + Filter(s[1..], chars)
  }

  /** How many characters of `s` are not in `chars`. */
  function CountNotIn(s: string, chars: string): nat
  {
    if s == [] then 0
    else (if s[0] in chars then 0 else 1) + CountNotIn(s[1..], chars)
  }

  /** `r` can be obtained from `s` by deleting characters. */
  predicate IsSubsequence(r: string, s: string)
  {
    if r == [] then true
    else if s == [] then false
    else if r[0] == s[0] then IsSubsequence(r[1..], s[1..])
    else IsSubsequence(r, s[1..])
  }

  /** `conditionAsNumeric(str)`: the loop finds the last character not in
      `chars_num`, erases it, steps `ptr` back by one (wrapping to NPOS at 0)
      and searches again from there. The string it leaves is the input
      filtered by `chars_num`. */
  method ConditionAsNumeric(str0: StdString, numeric: string) returns (str: StdString)
    ensures str == Filter(str0, CharsNum(numeric))
  {
    var charsNum := CharsNum(numeric);
    str := str0;
    var ptr: SizeType := NPOS;
    ptr := FindLastNotOf(str, charsNum, ptr);
    while ptr != NPOS
      invariant |str| <= |str0|
      invariant Filter(str, charsNum) == Filter(str0, charsNum)
      invariant ptr != NPOS ==> ptr < |str| && str[ptr] !in charsNum
      invariant forall k :: ptr < k < |str| ==> str[k] in charsNum
      invariant ptr == NPOS ==> forall k :: 0 <= k < |str| ==> str[k] in charsNum
      decreases |str|
    {
      FilterErase(str, charsNum, ptr);
      str := str[..ptr] + str[ptr + 1..];
      // Everything from the erased position on was already known to be allowed.
      assert forall k :: ptr <= k < |str| ==> str[k] in charsNum;
      ptr := Dec(ptr);
      ptr := FindLastNotOf(str, charsNum, ptr);
    }
    FilterFixedPoint(str, charsNum);
  }

  /** Filtering distributes over concatenation, so the order of the kept
      characters is the order of the input. */
  lemma {:induction false} FilterConcat(a: string, b: string, chars: string)
    ensures Filter(a + b, chars) == Filter(a, chars) + Filter(b, chars)
  {
    if a != [] {
      assert (a + b)[1..] == a[1..] + b;
      FilterConcat(a[1..], b, chars);
    } else {
      assert a + b == b;
    }
  }

  /** Erasing a character that is not in `chars` does not change the filter:
      the invariant `str.erase(ptr, 1)` keeps. */
  lemma FilterErase(s: string, chars: string, i: nat)
    requires i < |s| && s[i] !in chars
    ensures Filter(s[..i] + s[i + 1..], chars) == Filter(s, chars)
  {
    assert s == s[..i] + ([s[i]] + s[i + 1..]);
    FilterConcat(s[..i], [s[i]] + s[i + 1..], chars);
    FilterConcat([s[i]], s[i + 1..], chars);
    FilterConcat(s[..i], s[i + 1..], chars);
    assert Filter([s[i]], chars) == [];
  }

  /** A string is left unchanged exactly when all its characters are kept. */
  lemma {:induction false} FilterFixedPoint(s: string, chars: string)
    ensures Filter(s, chars) == s <==> forall k :: 0 <= k < |s| ==> s[k] in chars
  {
    if s != [] {
      FilterFixedPoint(s[1..], chars);
      if s[0] in chars && forall k :: 0 <= k < |s| ==> s[k] in chars {
        assert forall k :: 0 <= k < |s[1..]| ==> s[1..][k] in chars by {
          forall k | 0 <= k < |s[1..]| ensures s[1..][k] in chars {
            assert s[1..][k] == s[k + 1];
          }
        }
      }
      if s[0] !in chars {
        // Without s[0] the filter is too short to be s.
        assert |Filter(s, chars)| == |Filter(s[1..], chars)| <= |s| - 1;
      }
    }
  }

  /** Filtering twice is filtering once. */
  lemma FilterIdempotent(s: string, chars: string)
    ensures Filter(Filter(s, chars), chars) == Filter(s, chars)
  {
    FilterFixedPoint(Filter(s, chars), chars);
  }

  /** The filter is shorter than its input by exactly the number of
      characters it drops. */
  lemma {:induction false} FilterLength(s: string, chars: string)
    ensures |Filter(s, chars)| == |s| - CountNotIn(s, chars)
  {
    if s != [] {
      FilterLength(s[1..], chars);
    }
  }

  /** Every character in `chars` keeps all its occurrences, every other
      character loses all of them. */
  lemma {:induction false} FilterMultiset(s: string, chars: string, c: char)
    ensures multiset(Filter(s, chars))[c] == if c in chars then multiset(s)[c] else 0
  {
    if s != [] {
      FilterMultiset(s[1..], chars, c);
      assert s == [s[0]] + s[1..];
    }
  }

  /** The filter is obtained from its input by deleting characters only. */
  lemma {:induction false} FilterIsSubsequence(s: string, chars: string)
    ensures IsSubsequence(Filter(s, chars), s)
  {
    if s != [] {
      FilterIsSubsequence(s[1..], chars);
      if s[0] in chars {
        assert Filter(s, chars)[0] == s[0];
        assert Filter(s, chars)[1..] == Filter(s[1..], chars);
      } else {
        assert Filter(s, chars) == Filter(s[1..], chars);
      }
    }
  }

  /** Running `conditionAsNumeric` on its own result changes nothing. */
  method ConditionTwice(str0: StdString, numeric: string) returns (once: StdString, twice: StdString)
    ensures once == twice
    ensures forall k :: 0 <= k < |once| ==> once[k] in numeric || once[k] in ",.-"
  {
    once := ConditionAsNumeric(str0, numeric);
    twice := ConditionAsNumeric(once, numeric);
    FilterIdempotent(str0, CharsNum(numeric));
  }
}
