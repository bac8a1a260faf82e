/**
 * The pieces of `java.lang` the proxy's routing logic leans on, stated over
 * `string` (= `seq<char>`): `String.trim`, `String.split("\\s+")`,
 * `String.startsWith`, `Integer.parseInt`, the decimal rendering of an `int`
 * by `StringBuilder.append(int)`, and 32-bit two's-complement wrap-around.
 */
module JavaText {
  import opened Wrappers

  const INT_MIN: int := -0x8000_0000
  const INT_MAX: int := 0x7FFF_FFFF

  /** Membership in the regular-expression class `\s`: space, \t, \n, \x0B, \f and \r. */
  predicate IsWs(c: char) {
    c == ' ' || ('\t' <= c <= '\r')
  }

  /** A token of `split("\\s+")`: a non-empty run without any `\s` character. */
  predicate IsToken(t: string) {
    t != [] && forall c :: c in t ==> !IsWs(c)
  }

  /** `s.startsWith(prefix)`. */
  predicate StartsWith(s: string, prefix: string) {
    prefix <= s
  }

  // ---------------------------------------------------------------------------
  // String.trim: strip every character at or below U+0020 from both ends.

  function TrimStart(s: string): (r: string)
    ensures |r| <= |s|
    ensures r == s[|s| - |r|..]
    ensures forall k :: 0 <= k < |s| - |r| ==> s[k] <= ' '
    ensures r == [] || r[0] > ' '
    decreases |s|
  {
    if s != [] && s[0] <= ' ' then TrimStart(s[1..]) else s
  }

  function TrimEnd(s: string): (r: string)
    ensures |r| <= |s|
    ensures r == s[..|r|]
    ensures forall k :: |r| <= k < |s| ==> s[k] <= ' '
    ensures r == [] || r[|r| - 1] > ' '
    decreases |s|
  {
    if s != [] && s[|s| - 1] <= ' ' then TrimEnd(s[..|s| - 1]) else s
  }

  /** `s.trim()`: the result starts and ends with a character above U+0020,
      and leaves a string that already does so unchanged. */
  function Trim(s: string): (r: string)
    ensures |r| <= |s|
    ensures r == [] || (r[0] > ' ' && r[|r| - 1] > ' ')
    ensures r == s <==> (s == [] || (s[0] > ' ' && s[|s| - 1] > ' '))
  {
    TrimEnd(TrimStart(s))
  }

  // ---------------------------------------------------------------------------
  // String.split("\\s+")

  /** The longest prefix of `s` free of `\s` characters. */
  function Word(s: string): (w: string)
    ensures w <= s
    ensures forall c :: c in w ==> !IsWs(c)
    ensures |w| < |s| ==> IsWs(s[|w|])
    ensures s != [] && !IsWs(s[0]) ==> w != []
    decreases |s|
  {
    if s == [] || IsWs(s[0]) then [] else [s[0]] + Word(s[1..])
  }

  /** The maximal runs of non-`\s` characters of `s`, left to right. */
  function Tokens(s: string): (ts: seq<string>)
    ensures forall t :: t in ts ==> IsToken(t)
    decreases |s|
  {
    if s == [] then []
    else if IsWs(s[0]) then Tokens(s[1..])
    else
      var w := Word(s);
      [w] + Tokens(s[|w|..])
  }

  /** `s.split("\\s+")`: Java keeps an empty first part when `s` starts with a
      separator, returns `[s]` when nothing matches, and drops trailing empty parts. */
  function SplitWs(s: string): (parts: seq<string>)
    ensures s != [] && !IsWs(s[0]) ==> parts == Tokens(s) && parts != []
  {
    if s == [] then [s]
    else if IsWs(s[0]) && Tokens(s) != [] then [""] + Tokens(s)
    else Tokens(s)
  }

  /** Each token preceded by one space: what `sb.append(" ").append(t)` adds per token. */
  function SpacePrefixed(ts: seq<string>): string {
    if ts == [] then [] else " " + ts[0] + SpacePrefixed(ts[1..])
  }

  /** `sb.append(" ").append(t)` once more: one space and the token at the end. */
  lemma {:induction false} SpacePrefixedSnoc(ts: seq<string>, t: string)
    ensures SpacePrefixed(ts + [t]) == SpacePrefixed(ts) + " " + t
    decreases |ts|
  {
    if ts == [] {
      assert [t][1..] == [];
    } else {
      assert (ts + [t])[1..] == ts[1..] + [t];
      SpacePrefixedSnoc(ts[1..], t);
    }
  }

  /** Tokens joined by single spaces, as a client writes a command line. */
  function Joined(ts: seq<string>): string
    requires ts != []
  {
    ts[0] + SpacePrefixed(ts[1..])
  }

  /** A token that `String.trim` cannot shorten from either end: every character is above U+0020. */
  predicate IsPlainToken(t: string) {
    t != [] && forall c :: c in t ==> c > ' '
  }

  /** Space-prefixed plain tokens end with the last character of the last token. */
  lemma {:induction false} SpacePrefixedEnds(ts: seq<string>)
    requires ts != [] && forall t :: t in ts ==> IsPlainToken(t)
    ensures var s := SpacePrefixed(ts); s != [] && s[|s| - 1] > ' '
    decreases |ts|
  {
    var s := SpacePrefixed(ts);
    var rest := SpacePrefixed(ts[1..]);
    assert s == " " + ts[0] + rest;
    assert ts[0] in ts;
    var t := ts[0];
    assert t[|t| - 1] in t;
    if ts[1..] == [] {
      assert rest == [];
      assert s[|s| - 1] == t[|t| - 1];
    } else {
      assert forall u :: u in ts[1..] ==> u in ts;
      SpacePrefixedEnds(ts[1..]);
      assert s[|s| - 1] == rest[|rest| - 1];
    }
  }

  /** A line of plain tokens joined by single spaces is left alone by `trim` and
      splits back into exactly those tokens. */
  lemma JoinedPlainTokens(ts: seq<string>)
    requires ts != [] && forall t :: t in ts ==> IsPlainToken(t)
    ensures Trim(Joined(ts)) == Joined(ts)
    ensures SplitWs(Joined(ts)) == ts
  {
    var s := Joined(ts);
    assert ts[0] in ts;
    assert ts[0][0] in ts[0];
    assert s[0] == ts[0][0];
    if ts[1..] == [] {
      assert s == ts[0];
      assert s[|s| - 1] in ts[0];
    } else {
      assert forall t :: t in ts[1..] ==> t in ts;
      SpacePrefixedEnds(ts[1..]);
    }
    forall t | t in ts ensures IsToken(t) {
      assert forall c :: c in t ==> c > ' ';
    }
    assert forall u :: u in ts[1..] ==> u in ts;
    TokensOfWordThen(ts[0], ts[1..]);
    assert [ts[0]] + ts[1..] == ts;
  }

  lemma {:induction false} WordOfToken(t: string, rest: string)
    requires IsToken(t)
    requires rest == [] || IsWs(rest[0])
    ensures Word(t + rest) == t
    decreases |t|
  {
    if |t| > 1 {
      assert (t + rest)[1..] == t[1..] + rest;
      WordOfToken(t[1..], rest);
    } else {
      assert (t + rest)[1..] == rest;
    }
  }

  /** Splitting re-finds exactly the tokens that were joined with single spaces. */
  lemma {:induction false} TokensOfSpacePrefixed(ts: seq<string>)
    requires forall t :: t in ts ==> IsToken(t)
    ensures Tokens(SpacePrefixed(ts)) == ts
    decreases |ts|, 0
  {
    if ts != [] {
      var rest := SpacePrefixed(ts[1..]);
      var s := " " + ts[0] + rest;
      assert s == SpacePrefixed(ts);
      assert s[1..] == ts[0] + rest;
      TokensOfWordThen(ts[0], ts[1..]);
    }
  }

  /** A token followed by space-prefixed tokens splits into all of them. */
  lemma {:induction false} TokensOfWordThen(t: string, ts: seq<string>)
    requires IsToken(t)
    requires forall u :: u in ts ==> IsToken(u)
    ensures Tokens(t + SpacePrefixed(ts)) == [t] + ts
    decreases |ts|, 1
  {
    var rest := SpacePrefixed(ts);
    assert rest == [] || rest[0] == ' ';
    WordOfToken(t, rest);
    assert (t + rest)[|t|..] == rest;
    TokensOfSpacePrefixed(ts);
  }

  // ---------------------------------------------------------------------------
  // Integer.parseInt and the decimal rendering of a non-negative int

  predicate IsDigit(c: char) {
    '0' <= c <= '9'
  }

  predicate AllDigits(s: string) {
    forall i :: 0 <= i < |s| ==> IsDigit(s[i])
  }

  /** The value of a string of decimal digits, most significant first. */
  function DigitsValue(s: string): nat
    requires AllDigits(s)
  {
    if s == [] then 0
    else 10 * DigitsValue(s[..|s| - 1]) + (s[|s| - 1] as int - '0' as int)
  }

  /** `s` without its leading sign character, if it has one. */
  function Unsigned(s: string): string {
    if s != [] && (s[0] == '-' || s[0] == '+') then s[1..] else s
  }

  /** The value `s` denotes: the digits' value, negated under a leading '-'. */
  function SignedValue(s: string): int
    requires s != [] && AllDigits(Unsigned(s))
  {
    if s[0] == '-' then -(DigitsValue(Unsigned(s)) as int) else DigitsValue(Unsigned(s))
  }

  /** `Integer.parseInt(s)`: an optional `+` or `-`, at least one digit, nothing else,
      and a value within the 32-bit range; `None` where Java throws `NumberFormatException`. */
  function ParseInt(s: string): (r: Option<int>)
    ensures r.Some? ==> INT_MIN <= r.value <= INT_MAX
    ensures r.Some? ==> s != [] && (IsDigit(s[0]) || s[0] == '+' || s[0] == '-')
    ensures r.Some? ==> Unsigned(s) != [] && AllDigits(Unsigned(s)) && r.value == SignedValue(s)
    ensures r.Some? && r.value < 0 ==> s[0] == '-'
    ensures (s != [] && Unsigned(s) != [] && AllDigits(Unsigned(s))
             && INT_MIN <= SignedValue(s) <= INT_MAX) ==> r.Some?
  {
    if s == [] then None
    else
      var digits := if s[0] == '-' || s[0] == '+' then s[1..] else s;
      if digits == [] || !AllDigits(digits) then None
      else
        var v: int := if s[0] == '-' then -(DigitsValue(digits) as int) else DigitsValue(digits);
        if INT_MIN <= v <= INT_MAX then Some(v) else None
  }

  function DigitChar(d: nat): (c: char)
    requires d < 10
    ensures IsDigit(c) && c as int - '0' as int == d
  {
    ('0' as int + d) as char
  }

  /** The decimal text of `n` without sign or leading zeros, as `StringBuilder.append(int)` writes it. */
  function FormatNat(n: nat): (s: string)
    ensures s != [] && AllDigits(s)
    ensures DigitsValue(s) == n
    ensures s[0] == '0' ==> n == 0
  {
    if n < 10 then [DigitChar(n)]
    else
      var init := FormatNat(n / 10);
      var s := init + [DigitChar(n % 10)];
      assert s[..|s| - 1] == init;
      s
  }

  lemma FormatNatIsToken(n: nat)
    ensures IsToken(FormatNat(n))
  {
    var s := FormatNat(n);
    forall c | c in s ensures !IsWs(c) {
      var i :| 0 <= i < |s| && s[i] == c;
      assert IsDigit(s[i]);
    }
  }

  /** Parsing the decimal rendering of an int-sized count gives the count back. */
  lemma ParseFormatNat(n: nat)
    requires n <= INT_MAX
    ensures ParseInt(FormatNat(n)) == Some(n)
  {
    var s := FormatNat(n);
    assert IsDigit(s[0]);
  }

  // ---------------------------------------------------------------------------
  // 32-bit int arithmetic

  /** The 32-bit two's-complement value congruent to `x`, as Java's `int` arithmetic yields. */
  function Wrap32(x: int): (r: int)
    ensures INT_MIN <= r <= INT_MAX
    ensures (r - x) % 0x1_0000_0000 == 0
    ensures INT_MIN <= x <= INT_MAX ==> r == x
  {
    (x - INT_MIN) % 0x1_0000_0000 + INT_MIN
  }

  /** A sum just past `INT_MAX` wraps around to the negative end of the range. */
  lemma WrapPastMax(x: int)
    requires INT_MAX < x <= INT_MAX + 2
    ensures Wrap32(x) == x - 0x1_0000_0000 && Wrap32(x) < 0
  {
    var d := x - INT_MIN;
    assert 0x1_0000_0000 <= d < 2 * 0x1_0000_0000;
    assert d % 0x1_0000_0000 == d - 0x1_0000_0000;
  }
}
