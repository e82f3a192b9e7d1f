/**
  Text primitives with the meaning Python gives them: character classes,
  ASCII case folding, `strip`, `split`, `join`, `in` on strings, slicing and
  `int()` on a string.
*/
module PyText {
  import opened Wrappers

  /** Python's `str.isspace()`; `\s` in a `str` pattern matches the same characters. */
  predicate IsSpace(c: char) {
    ('\t' <= c <= '\r') || ('\U{1c}' <= c <= ' ') || c == '\U{85}' || c == '\U{a0}'
    || c == '\U{1680}' || ('\U{2000}' <= c <= '\U{200a}') || c == '\U{2028}' || c == '\U{2029}'
    || c == '\U{202f}' || c == '\U{205f}' || c == '\U{3000}'
  }

  /** `\w`, restricted to ASCII letters, digits and underscore. */
  predicate IsWordChar(c: char) {
    ('a' <= c <= 'z') || ('A' <= c <= 'Z') || ('0' <= c <= '9') || c == '_'
  }

  predicate IsDigit(c: char) {
    '0' <= c <= '9'
  }

  predicate IsWord(s: string) {
    |s| > 0 && forall i :: 0 <= i < |s| ==> IsWordChar(s[i])
  }

  /** `str.lower()` on ASCII letters; other characters are kept. */
  function LowerChar(c: char): char {
    if 'A' <= c <= 'Z' then (c as int + 32) as char else c
  }

  function Lower(s: string): (r: string)
    ensures |r| == |s|
  {
    seq(|s|, i requires 0 <= i < |s| => LowerChar(s[i]))
  }

  /** `str.upper()` on ASCII letters; other characters are kept. */
  function UpperChar(c: char): char {
    if 'a' <= c <= 'z' then (c as int - 32) as char else c
  }

  function Upper(s: string): (r: string)
    ensures |r| == |s|
  {
    seq(|s|, i requires 0 <= i < |s| => UpperChar(s[i]))
  }

  /** End of the longest run of characters satisfying `p` that starts at `i`. */
  function RunEnd(s: string, i: nat, p: char -> bool): (j: nat)
    requires i <= |s|
    ensures i <= j <= |s|
    ensures forall k :: i <= k < j ==> p(s[k])
    ensures j == |s| || !p(s[j])
    decreases |s| - i
  {
    if i == |s| || !p(s[i]) then i else RunEnd(s, i + 1, p)
  }

  /** A run that ends where `p` first fails is the longest one. */
  lemma RunEndUnique(s: string, i: nat, p: char -> bool, j: nat)
    requires i <= j <= |s|
    requires forall k :: i <= k < j ==> p(s[k])
    requires j == |s| || !p(s[j])
    ensures RunEnd(s, i, p) == j
    decreases |s| - i
  {
    if i < j {
      RunEndUnique(s, i + 1, p, j);
    }
  }

  /** `s.lstrip(chars)`: the suffix left after dropping every leading character in `drop`. */
  function TrimStart(s: string, drop: char -> bool): (r: string)
    ensures |r| <= |s| && r == s[|s| - |r|..]
    ensures forall i :: 0 <= i < |s| - |r| ==> drop(s[i])
    ensures r == [] || !drop(r[0])
  {
    if |s| > 0 && drop(s[0]) then
      var r := TrimStart(s[1..], drop);
      assert s[1..][|s| - 1 - |r|..] == s[|s| - |r|..];
      assert forall i :: 0 < i < |s| - |r| ==> s[i] == s[1..][i - 1];
      r
    else s
  }

  /** `s.rstrip(chars)`: the prefix left after dropping every trailing character in `drop`. */
  function TrimEnd(s: string, drop: char -> bool): (r: string)
    ensures |r| <= |s| && r == s[..|r|]
    ensures forall i :: |r| <= i < |s| ==> drop(s[i])
    ensures r == [] || !drop(r[|r| - 1])
  {
    if |s| > 0 && drop(s[|s| - 1]) then TrimEnd(s[..|s| - 1], drop) else s
  }

  /** `s.strip(chars)`. */
  function Trim(s: string, drop: char -> bool): string {
    TrimEnd(TrimStart(s, drop), drop)
  }

  /** `s.strip()`. */
  function Strip(s: string): string {
    Trim(s, IsSpace)
  }

  /** What `strip` leaves neither starts nor ends with a dropped character. */
  lemma TrimEnds(s: string, drop: char -> bool)
    ensures var r := Trim(s, drop); r == [] || (!drop(r[0]) && !drop(r[|r| - 1]))
  {
    var t := TrimStart(s, drop);
    var r := TrimEnd(t, drop);
    if r != [] {
      assert r[0] == t[0];
    }
  }

  /** A text whose ends are kept is left unchanged by `strip`. */
  lemma TrimKeeps(s: string, drop: char -> bool)
    requires s == [] || (!drop(s[0]) && !drop(s[|s| - 1]))
    ensures Trim(s, drop) == s
  {
  }

  /** `strip` is idempotent. */
  lemma TrimIdempotent(s: string, drop: char -> bool)
    ensures Trim(Trim(s, drop), drop) == Trim(s, drop)
  {
    TrimEnds(s, drop);
    TrimKeeps(Trim(s, drop), drop);
  }

  /** `sep.join(xs)`. */
  function Join(xs: seq<string>, sep: string): (r: string)
    ensures |xs| == 1 ==> r == xs[0]
  {
    if |xs| == 0 then "" else if |xs| == 1 then xs[0] else xs[0] + sep + Join(xs[1..], sep)
  }

  /** Index of the first `c` at or after `i`, or `|s|` when there is none. */
  function IndexOf(s: string, c: char, i: nat): (j: nat)
    requires i <= |s|
    ensures i <= j <= |s|
    ensures forall k :: i <= k < j ==> s[k] != c
    ensures j == |s| || s[j] == c
    decreases |s| - i
  {
    if i == |s| || s[i] == c then i else IndexOf(s, c, i + 1)
  }

  lemma IndexOfUnique(s: string, c: char, i: nat, j: nat)
    requires i <= j <= |s|
    requires forall k :: i <= k < j ==> s[k] != c
    requires j == |s| || s[j] == c
    ensures IndexOf(s, c, i) == j
    decreases |s| - i
  {
    if i < j {
      IndexOfUnique(s, c, i + 1, j);
    }
  }

  /** `s.split(c)` for a one-character separator: always at least one piece. */
  function Split(s: string, c: char): (r: seq<string>)
    ensures |r| > 0
    ensures forall k :: 0 <= k < |r| ==> c !in r[k]
    decreases |s|
  {
    var k := IndexOf(s, c, 0);
    if k == |s| then [s] else [s[..k]] + Split(s[k + 1..], c)
  }

  /** Splitting a joined text gives back its pieces when none of them holds the separator. */
  lemma {:induction false} SplitJoin(xs: seq<string>, c: char)
    requires |xs| > 0
    requires forall k :: 0 <= k < |xs| ==> c !in xs[k]
    ensures Split(Join(xs, [c]), c) == xs
    decreases |xs|
  {
    var s := Join(xs, [c]);
    var k := IndexOf(s, c, 0);
    if |xs| == 1 {
      assert forall i :: 0 <= i < |s| ==> s[i] in xs[0];
      assert k == |s|;
    } else {
      var rest := Join(xs[1..], [c]);
      assert s == xs[0] + [c] + rest;
      assert forall i :: 0 <= i < |xs[0]| ==> s[i] == xs[0][i];
      assert s[|xs[0]|] == c;
      assert k == |xs[0]|;
      assert s[..k] == xs[0];
      assert s[k + 1..] == rest;
      SplitJoin(xs[1..], c);
    }
  }

  /** Joining the pieces of a split gives back the text. */
  lemma {:induction false} JoinSplit(s: string, c: char)
    ensures Join(Split(s, c), [c]) == s
    decreases |s|
  {
    var k := IndexOf(s, c, 0);
    if k < |s| {
      JoinSplit(s[k + 1..], c);
      assert s == s[..k] + [c] + s[k + 1..];
    }
  }

  /** `sub` occurs in `s` at index `i`. */
  predicate OccursAt(s: string, sub: string, i: int) {
    0 <= i <= |s| - |sub| && s[i..i + |sub|] == sub
  }

  /** Python's `sub in s`. */
  function Contains(s: string, sub: string): (b: bool)
    ensures b <==> exists i :: OccursAt(s, sub, i)
    decreases |s|
  {
    if |s| < |sub| then false
    else if s[..|sub|] == sub then assert OccursAt(s, sub, 0); true
    else
      var b := Contains(s[1..], sub);
      assert forall i :: OccursAt(s[1..], sub, i) <==> OccursAt(s, sub, i + 1) by {
        forall i ensures OccursAt(s[1..], sub, i) <==> OccursAt(s, sub, i + 1) {
          if 0 <= i <= |s| - 1 - |sub| {
            assert s[1..][i..i + |sub|] == s[i + 1..i + 1 + |sub|];
          }
        }
      }
      assert (exists i :: OccursAt(s, sub, i)) ==> exists i :: OccursAt(s[1..], sub, i) by {
        if exists i :: OccursAt(s, sub, i) {
          var i :| OccursAt(s, sub, i);
          assert i != 0;
          assert OccursAt(s[1..], sub, i - 1);
        }
      }
      b
  }

  /** Python's slice `s[:n]` for `n >= 0`. */
  function Take(s: string, n: nat): (r: string)
    ensures |r| <= n && r <= s
    ensures |s| <= n ==> r == s
  {
    if |s| <= n then s else s[..n]
  }

  /** The characters accepted by `int()` once the text is stripped and the sign removed:
      decimal digits, with single underscores allowed between two digits. */
  predicate DigitsOk(t: string) {
    |t| > 0 && IsDigit(t[0])
    && forall i :: 0 <= i < |t| ==> IsDigit(t[i]) || (t[i] == '_' && i + 1 < |t| && IsDigit(t[i + 1]))
  }

  /** The number the digits of `t` spell, underscores ignored. */
  function DigitsValue(t: string): nat {
    if t == [] then 0
    else if IsDigit(t[|t| - 1]) then DigitsValue(t[..|t| - 1]) * 10 + (t[|t| - 1] as int - '0' as int)
    else DigitsValue(t[..|t| - 1])
  }

  /**
    `sys.int_max_str_digits` at its default (Python 3.11 and later): the most
    digits `int()` reads from a decimal text, and `str()` writes for an integer.
  */
  const MaxStrDigits: nat := 4300

  /** How many digits `t` holds, underscores not counted. */
  function DigitCount(t: string): nat {
    if t == [] then 0
    else DigitCount(t[..|t| - 1]) + (if IsDigit(t[|t| - 1]) then 1 else 0)
  }

  /** Digits `int()` accepts: well formed, and no more of them than the limit. */
  predicate Numeral(t: string) {
    DigitsOk(t) && DigitCount(t) <= MaxStrDigits
  }

  /**
    The whitespace `int()` skips around a numeral: the `isspace` characters
    except the separators U+001C to U+001F, which CPython keeps as they are
    (below code 128 only space and `\t` to `\r` are skipped).
  */
  predicate IntSpace(c: char) {
    IsSpace(c) && !('\U{1c}' <= c <= '\U{1f}')
  }

  /** Python's `int(s)` for a `str`: `None` where it raises ValueError. */
  function PyInt(s: string): Option<int> {
    ParseSigned(Trim(s, IntSpace))
  }

  /** A separator character before the digits makes `int()` raise, though `strip()` would drop it. */
  lemma SeparatorNotSkipped(s: string)
    requires s == ['\U{1c}', '3']
    ensures PyInt(s) == None && Strip(s) == "3"
  {
    assert TrimStart(s, IntSpace) == s;
    assert TrimEnd(s, IntSpace) == s;
    assert !DigitsOk(s);
    assert TrimStart(s, IsSpace) == "3" by {
      assert TrimStart(s, IsSpace) == TrimStart(s[1..], IsSpace);
    }
  }

  /** An optional sign followed by digits, as `int()` reads a stripped text. */
  function ParseSigned(t: string): Option<int> {
    if |t| > 0 && (t[0] == '+' || t[0] == '-') then
      var v: int := DigitsValue(t[1..]);
      if Numeral(t[1..]) then Some(if t[0] == '-' then -v else v) else None
    else if Numeral(t) then Some(DigitsValue(t))
    else None
  }

  function DigitChar(d: nat): (c: char)
    requires d < 10
    ensures IsDigit(c) && c as int - '0' as int == d
  {
    ('0' as int + d) as char
  }

  /** The decimal digits of `n`, most significant first, as `str(n)` writes them. */
  function NatDigits(n: nat): (r: string)
    ensures |r| > 0 && forall i :: 0 <= i < |r| ==> IsDigit(r[i])
  {
    if n < 10 then [DigitChar(n)] else NatDigits(n / 10) + [DigitChar(n % 10)]
  }

  /** Python's `str(n)` for an integer. */
  function DecimalString(n: int): string {
    if n < 0 then "-" + NatDigits(-n) else NatDigits(n)
  }

  lemma {:induction false} DigitsValueOfNatDigits(n: nat)
    ensures DigitsValue(NatDigits(n)) == n
  {
    if n >= 10 {
      var r := NatDigits(n);
      assert r[..|r| - 1] == NatDigits(n / 10);
      DigitsValueOfNatDigits(n / 10);
    }
  }

  /** `str(n)` succeeds: `n` has at most `MaxStrDigits` digits. */
  predicate StrFits(n: int) {
    |NatDigits(if n < 0 then -n else n)| <= MaxStrDigits
  }

  /** `int(str(n)) == n` for every integer `str` can write. */
  lemma PyIntOfDecimalString(n: int)
    requires StrFits(n)
    ensures PyInt(DecimalString(n)) == Some(n)
  {
    StripDecimal(n);
    if n < 0 {
      NegativeDecimal(-n);
    } else {
      NaturalDecimal(n);
    }
  }

  /** A numeral of more than `MaxStrDigits` digits is refused by `int()`. */
  lemma PyIntOfLongNumeral(n: int)
    requires !StrFits(n)
    ensures PyInt(DecimalString(n)) == None
  {
    StripDecimal(n);
    var d := NatDigits(if n < 0 then -n else n);
    DigitCountOfDigits(d);
    if n < 0 {
      assert DecimalString(n)[1..] == d;
    }
  }

  /** In a text of digits alone, every character counts. */
  lemma {:induction false} DigitCountOfDigits(t: string)
    requires forall i :: 0 <= i < |t| ==> IsDigit(t[i])
    ensures DigitCount(t) == |t|
  {
    if t != [] {
      DigitCountOfDigits(t[..|t| - 1]);
    }
  }

  /** A decimal numeral has no surrounding whitespace. */
  lemma StripDecimal(n: int)
    ensures Trim(DecimalString(n), IntSpace) == DecimalString(n)
  {
    var s := DecimalString(n);
    assert !IntSpace(s[0]) && !IntSpace(s[|s| - 1]);
    TrimKeeps(s, IntSpace);
  }

  lemma NaturalDecimal(n: nat)
    requires |NatDigits(n)| <= MaxStrDigits
    ensures ParseSigned(NatDigits(n)) == Some(n)
  {
    DigitsValueOfNatDigits(n);
    NatDigitsNumeral(n);
  }

  lemma NegativeDecimal(m: nat)
    requires m > 0 && |NatDigits(m)| <= MaxStrDigits
    ensures ParseSigned("-" + NatDigits(m)) == Some(-(m as int))
  {
    var d := NatDigits(m);
    var s := "-" + d;
    assert s[0] == '-' && s[1..] == d;
    DigitsValueOfNatDigits(m);
    NatDigitsNumeral(m);
  }

  /** The digits `str` writes for a natural number within the limit are a numeral `int()` accepts. */
  lemma NatDigitsNumeral(n: nat)
    requires |NatDigits(n)| <= MaxStrDigits
    ensures Numeral(NatDigits(n))
  {
    var d := NatDigits(n);
    DigitCountOfDigits(d);
    assert DigitsOk(d);
  }
}
