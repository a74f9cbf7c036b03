/**
 * The few pieces of Python's string handling that the integration relies on,
 * restricted to ASCII: `str.strip`, `str.lower`, `str(int)` and `int(str)`.
 */
module Text {
  import opened Wrappers

  /** The ASCII characters for which Python's `str.isspace()` holds (these are also what `\s` matches). */
  const Whitespace: set<char> := {' ', '\t', '\n', '\r', '\U{000B}', '\U{000C}', '\U{001C}', '\U{001D}', '\U{001E}', '\U{001F}'}

  predicate IsDigit(c: char) { '0' <= c <= '9' }

  predicate AllDigits(s: string) { forall i :: 0 <= i < |s| ==> IsDigit(s[i]) }

  predicate AllIn(s: string, chars: set<char>) { forall i :: 0 <= i < |s| ==> s[i] in chars }

  function DigitValue(c: char): (v: nat)
    requires IsDigit(c)
    ensures v < 10
  {
    (c as int) - ('0' as int)
  }

  function DigitChar(v: nat): (c: char)
    requires v < 10
    ensures IsDigit(c) && DigitValue(c) == v
  {
    (('0' as int) + v) as char
  }

  /** The number an all-digit string spells in base 10 (leading zeros allowed). */
  function DigitsValue(s: string): int
  {
    if s == [] then 0 else DigitsValue(s[..|s| - 1]) * 10 + ((s[|s| - 1] as int) - ('0' as int))
  }

  /** `str(n)` for a natural number: decimal digits, no leading zero. */
  function NatToString(n: nat): (s: string)
    ensures |s| >= 1 && AllDigits(s)
    ensures |s| > 1 ==> s[0] != '0'
  {
    if n < 10 then [DigitChar(n)] else NatToString(n / 10) + [DigitChar(n % 10)]
  }

  /** `str(i)` for any integer. */
  function IntToString(i: int): (s: string)
    ensures |s| >= 1
  {
    if i < 0 then "-" + NatToString(-i) else NatToString(i)
  }

  lemma {:induction false} NatToStringValue(n: nat)
    ensures DigitsValue(NatToString(n)) == n
  {
    if n >= 10 {
      var s := NatToString(n);
      assert s[..|s| - 1] == NatToString(n / 10);
      NatToStringValue(n / 10);
    }
  }

  /** Python's `str.strip(chars)`: drop every leading and trailing character that is in `chars`. */
  function StripChars(s: string, chars: set<char>): (r: string)
  {
    StripTrailing(StripLeading(s, chars), chars)
  }

  function StripLeading(s: string, chars: set<char>): (r: string)
    ensures |r| <= |s|
  {
    if s != [] && s[0] in chars then StripLeading(s[1..], chars) else s
  }

  function StripTrailing(s: string, chars: set<char>): (r: string)
    ensures |r| <= |s|
  {
    if s != [] && s[|s| - 1] in chars then StripTrailing(s[..|s| - 1], chars) else s
  }

  /** `StripLeading` removes a run of `chars` from the front and stops at a kept character. */
  lemma {:induction false} StripLeadingShape(s: string, chars: set<char>)
    ensures var r := StripLeading(s, chars);
      r == s[|s| - |r|..] && AllIn(s[..|s| - |r|], chars) && (r == [] || r[0] !in chars)
  {
    if s != [] && s[0] in chars {
      StripLeadingShape(s[1..], chars);
      var r := StripLeading(s, chars);
      assert s[..|s| - |r|] == [s[0]] + s[1..][..|s[1..]| - |r|];
    }
  }

  /** `StripTrailing` removes a run of `chars` from the back and stops at a kept character. */
  lemma {:induction false} StripTrailingShape(s: string, chars: set<char>)
    ensures var r := StripTrailing(s, chars);
      r == s[..|r|] && AllIn(s[|r|..], chars) && (r == [] || r[|r| - 1] !in chars)
  {
    if s != [] && s[|s| - 1] in chars {
      StripTrailingShape(s[..|s| - 1], chars);
      var r := StripTrailing(s, chars);
      assert s[|r|..] == s[..|s| - 1][|r|..] + [s[|s| - 1]];
    }
  }

  /** Python's `str.strip()` with no argument. */
  function Strip(s: string): string
  {
    StripChars(s, Whitespace)
  }

  /**
   * What strip leaves: `s` is a run of stripped characters, the result, and another such run,
   * and the result neither starts nor ends with one.
   */
  lemma StripCharsShape(s: string, chars: set<char>) returns (pre: string, post: string)
    ensures StripChars(s, chars) == [] || StripChars(s, chars)[0] !in chars
    ensures StripChars(s, chars) == [] || StripChars(s, chars)[|StripChars(s, chars)| - 1] !in chars
    ensures s == pre + StripChars(s, chars) + post
    ensures AllIn(pre, chars) && AllIn(post, chars)
  {
    var l := StripLeading(s, chars);
    var r := StripTrailing(l, chars);
    pre, post := StripSplit(s, l, r, chars);
    StripEnds(s, l, r, chars);
  }

  lemma StripSplit(s: string, l: string, r: string, chars: set<char>) returns (pre: string, post: string)
    requires l == StripLeading(s, chars) && r == StripTrailing(l, chars)
    ensures s == pre + r + post
    ensures AllIn(pre, chars) && AllIn(post, chars)
  {
    pre := s[..|s| - |l|];
    post := l[|r|..];
    assert s == pre + l && AllIn(pre, chars) by {
      StripLeadingShape(s, chars);
    }
    assert l == r + post && AllIn(post, chars) by {
      StripTrailingShape(l, chars);
    }
    PrependToSplit(pre, l, r, post);
  }

  lemma StripEnds(s: string, l: string, r: string, chars: set<char>)
    requires l == StripLeading(s, chars) && r == StripTrailing(l, chars)
    ensures r == [] || (r[0] !in chars && r[|r| - 1] !in chars)
  {
    StripLeadingShape(s, chars);
    StripTrailingShape(l, chars);
    assert r == [] || r[0] == l[0];
  }

  /** Concatenation is associative: a prefix in front of `y + z` belongs to `y`. */
  lemma PrependToSplit<T>(p: seq<T>, x: seq<T>, y: seq<T>, z: seq<T>)
    requires x == y + z
    ensures p + x == (p + y) + z
  {
  }

  /** Stripping is unaffected by extra strippable characters in front. */
  lemma {:induction false} StripLeadingIgnoresPrefix(pre: string, s: string, chars: set<char>)
    requires AllIn(pre, chars)
    ensures StripLeading(pre + s, chars) == StripLeading(s, chars)
  {
    if pre != [] {
      assert (pre + s)[0] == pre[0] && pre[0] in chars;
      assert (pre + s)[1..] == pre[1..] + s;
      StripLeadingIgnoresPrefix(pre[1..], s, chars);
    } else {
      assert pre + s == s;
    }
  }

  /** A string that starts and ends with a kept character is its own strip. */
  lemma StripCharsOfStripped(s: string, chars: set<char>)
    requires s == [] || (s[0] !in chars && s[|s| - 1] !in chars)
    ensures StripChars(s, chars) == s
  {
  }

  /** Python's `str.strip()` is idempotent. */
  lemma StripIdempotent(s: string, chars: set<char>)
    ensures StripChars(StripChars(s, chars), chars) == StripChars(s, chars)
  {
    var _, _ := StripCharsShape(s, chars);
    StripCharsOfStripped(StripChars(s, chars), chars);
  }

  /** `str.lower()` on one character, ASCII letters only. */
  function LowerChar(c: char): (r: char)
    ensures 'A' <= c <= 'Z' ==> 'a' <= r <= 'z' && r as int - 'a' as int == c as int - 'A' as int
    ensures !('A' <= c <= 'Z') ==> r == c
  {
    if 'A' <= c <= 'Z' then ((c as int) + 32) as char else c
  }

  /** `str.lower()`, ASCII letters only. */
  function Lower(s: string): (r: string)
    ensures |r| == |s|
    ensures forall i :: 0 <= i < |s| ==> r[i] == LowerChar(s[i])
  {
    seq(|s|, i requires 0 <= i < |s| => LowerChar(s[i]))
  }

  /** A string without capitals is its own lowercase form. */
  lemma LowerFixes(s: string)
    requires forall i :: 0 <= i < |s| ==> !('A' <= s[i] <= 'Z')
    ensures Lower(s) == s
  {
  }

  /** Lowercasing works piece by piece. */
  lemma LowerConcat(a: string, b: string)
    ensures Lower(a + b) == Lower(a) + Lower(b)
  {
    var l, r := Lower(a + b), Lower(a) + Lower(b);
    forall i | 0 <= i < |l|
      ensures l[i] == r[i]
    {
      if i < |a| {
        assert (a + b)[i] == a[i];
      } else {
        assert (a + b)[i] == b[i - |a|];
      }
    }
  }

  /** The digits of `int()`'s argument: digits, optionally with single underscores between them. */
  predicate DigitGroups(s: string)
  {
    && s != []
    && IsDigit(s[0]) && IsDigit(s[|s| - 1])
    && (forall i :: 0 <= i < |s| ==> IsDigit(s[i]) || s[i] == '_')
    && (forall i :: 0 <= i < |s| - 1 ==> s[i] == '_' ==> s[i + 1] != '_')
  }

  function RemoveUnderscores(s: string): (r: string)
    ensures (forall i :: 0 <= i < |s| ==> IsDigit(s[i]) || s[i] == '_') ==> AllDigits(r)
  {
    if s == [] then []
    else (if s[0] == '_' then [] else [s[0]]) + RemoveUnderscores(s[1..])
  }

  lemma {:induction false} RemoveUnderscoresOfDigits(s: string)
    requires AllDigits(s)
    ensures RemoveUnderscores(s) == s
  {
    if s != [] {
      RemoveUnderscoresOfDigits(s[1..]);
    }
  }

  /** The value of the digit groups `int()` accepts after its optional sign. */
  function ParseDigitGroups(body: string): Option<int>
  {
    if DigitGroups(body) then Some(DigitsValue(RemoveUnderscores(body))) else None
  }

  /** `int()` on an already stripped string: an optional sign, then digit groups. */
  function ParseSigned(t: string): Option<int>
  {
    if t != [] && t[0] == '-' then
      match ParseDigitGroups(t[1..])
      case Some(v) => Some(-v)
      case None => None
    else if t != [] && t[0] == '+' then ParseDigitGroups(t[1..])
    else ParseDigitGroups(t)
  }

  /**
   * Python's `int(s)` in base 10 for ASCII input: surrounding whitespace, an optional sign,
   * then digit groups. `None` stands for the ValueError it raises on anything else.
   */
  function ParseInt(s: string): Option<int>
  {
    ParseSigned(Strip(s))
  }

  /** Python's `int()` reads back the digits `str()` writes for a natural number. */
  lemma ParseDigitGroupsOfNat(n: nat)
    ensures ParseDigitGroups(NatToString(n)) == Some(n)
  {
    var digits := NatToString(n);
    NatToStringValue(n);
    assert DigitGroups(digits);
    RemoveUnderscoresOfDigits(digits);
  }

  /** `int(str(i)) == i`. */
  lemma ParseIntOfIntToString(i: int)
    ensures ParseInt(IntToString(i)) == Some(i)
  {
    var s := IntToString(i);
    var digits := NatToString(if i < 0 then -i else i);
    assert IsDigit(s[|s| - 1]) && (IsDigit(s[0]) || s[0] == '-');
    StripCharsOfStripped(s, Whitespace);
    assert Strip(s) == s;
    ParseDigitGroupsOfNat(if i < 0 then -i else i);
    if i < 0 {
      assert s[1..] == digits;
    }
  }
}
