/** The JavaScript string built-ins the application relies on, over
    `seq<char>`: `includes`, `toLowerCase`, `trim`, `split` and `join` with a
    string separator, `replace` with a global pattern (including the `$`
    substitution codes of its replacement string), `parseInt`,
    `Number.prototype.toString` on integers, and the UTF-16 `length` that
    form validation counts. */
module JsText {
  import opened Wrappers

  // ---------------------------------------------------------------------
  // includes
  // ---------------------------------------------------------------------

  predicate IsPrefix(p: string, s: string) {
    |p| <= |s| && s[..|p|] == p
  }

  /** `t` occurs in `s` starting at index `i`. */
  predicate OccursAt(s: string, t: string, i: int) {
    0 <= i && i + |t| <= |s| && s[i..i + |t|] == t
  }

  /** `s.includes(t)`, scanning from the left. */
  predicate Includes(s: string, t: string)
    decreases |s|
  {
    IsPrefix(t, s) || (|s| > 0 && Includes(s[1..], t))
  }

  /** The scan agrees with the textbook definition of a substring. */
  lemma {:induction false} IncludesIffOccurs(s: string, t: string)
    ensures Includes(s, t) <==> exists i :: OccursAt(s, t, i)
    decreases |s|
  {
    if Includes(s, t) {
      if IsPrefix(t, s) {
        assert OccursAt(s, t, 0);
      } else {
        IncludesIffOccurs(s[1..], t);
        var i :| OccursAt(s[1..], t, i);
        assert s[1..][i..i + |t|] == s[i + 1..i + 1 + |t|];
        assert OccursAt(s, t, i + 1);
      }
    }
    if exists i :: OccursAt(s, t, i) {
      var i :| OccursAt(s, t, i);
      if i > 0 {
        assert s[1..][i - 1..i - 1 + |t|] == s[i..i + |t|];
        assert OccursAt(s[1..], t, i - 1);
        IncludesIffOccurs(s[1..], t);
      } else {
        assert IsPrefix(t, s);
      }
    }
  }

  /** Every string includes the empty string. */
  lemma IncludesEmpty(s: string)
    ensures Includes(s, "")
  {
    assert IsPrefix("", s);
  }

  // ---------------------------------------------------------------------
  // toLowerCase
  // ---------------------------------------------------------------------

  /** Lower-casing of one character: ASCII `A`-`Z` and the Latin-1 capitals
      U+00C0..U+00DE (except the multiplication sign U+00D7) move up by 32;
      every other character is kept. */
  function LowerChar(c: char): char {
    var n := c as int;
    if 0x41 <= n <= 0x5A || (0xC0 <= n <= 0xDE && n != 0xD7) then (n + 32) as char else c
  }

  function ToLower(s: string): (r: string)
    ensures |r| == |s|
    ensures forall k :: 0 <= k < |s| ==> r[k] == LowerChar(s[k])
  {
    seq(|s|, k requires 0 <= k < |s| => LowerChar(s[k]))
  }

  lemma ToLowerIdempotent(s: string)
    ensures ToLower(ToLower(s)) == ToLower(s)
  {
  }

  /** `s.toLowerCase().includes(t.toLowerCase())`: the case-insensitive
      search every list screen uses. */
  predicate IncludesIgnoringCase(s: string, t: string) {
    Includes(ToLower(s), ToLower(t))
  }

  /** A case-insensitive search gives the same answer for any two casings
      of the text and of the term, that is, for any two strings with the
      same lower-cased form; in particular a string and its lower-cased
      form are not told apart. */
  lemma IgnoringCaseIsCaseBlind(s1: string, s2: string, t1: string, t2: string)
    ensures ToLower(s1) == ToLower(s2) && ToLower(t1) == ToLower(t2) ==>
      IncludesIgnoringCase(s1, t1) == IncludesIgnoringCase(s2, t2)
    ensures IncludesIgnoringCase(ToLower(s1), t1) == IncludesIgnoringCase(s1, t1)
    ensures IncludesIgnoringCase(s1, ToLower(t1)) == IncludesIgnoringCase(s1, t1)
  {
    ToLowerIdempotent(s1);
    ToLowerIdempotent(t1);
  }

  /** The empty search term matches every string. */
  lemma EmptyTermMatches(s: string)
    ensures IncludesIgnoringCase(s, "")
    ensures Includes(s, "")
  {
    assert ToLower("") == "";
    IncludesEmpty(ToLower(s));
    IncludesEmpty(s);
  }

  // ---------------------------------------------------------------------
  // trim
  // ---------------------------------------------------------------------

  /** The characters `String.prototype.trim` removes: the ECMAScript
      WhiteSpace and LineTerminator code points (tab, line feed, vertical
      tab, form feed, carriage return, space, no-break space, the byte order
      mark, the line and paragraph separators, and the Unicode space
      separators). */
  predicate IsWhiteSpace(c: char) {
    var n := c as int;
    || (0x09 <= n <= 0x0D) || n == 0x20 || n == 0xA0 || n == 0x1680
    || (0x2000 <= n <= 0x200A) || n == 0x2028 || n == 0x2029 || n == 0x202F
    || n == 0x205F || n == 0x3000 || n == 0xFEFF
  }

  /** Length of the longest all-white-space prefix of `s`. */
  function LeadingSpaces(s: string): (n: nat)
    ensures n <= |s|
    ensures forall k :: 0 <= k < n ==> IsWhiteSpace(s[k])
    ensures n == |s| || !IsWhiteSpace(s[n])
    decreases |s|
  {
    if |s| > 0 && IsWhiteSpace(s[0]) then 1 + LeadingSpaces(s[1..]) else 0
  }

  /** Length of the longest all-white-space suffix of `s`. */
  function TrailingSpaces(s: string): (n: nat)
    ensures n <= |s|
    ensures forall k :: |s| - n <= k < |s| ==> IsWhiteSpace(s[k])
    ensures n == |s| || !IsWhiteSpace(s[|s| - n - 1])
    decreases |s|
  {
    if |s| > 0 && IsWhiteSpace(s[|s| - 1]) then 1 + TrailingSpaces(s[..|s| - 1]) else 0
  }

  function TrimStart(s: string): string {
    s[LeadingSpaces(s)..]
  }

  function TrimEnd(s: string): string {
    s[..|s| - TrailingSpaces(s)]
  }

  /** `s.trim()`: a slice of `s` that neither starts nor ends with white
      space, and is empty only when `s` is all white space. */
  function Trim(s: string): (r: string)
    ensures OccursAt(s, r, LeadingSpaces(s))
    ensures |r| > 0 ==> !IsWhiteSpace(r[0]) && !IsWhiteSpace(r[|r| - 1])
    ensures r == [] <==> forall k :: 0 <= k < |s| ==> IsWhiteSpace(s[k])
  {
    var t := TrimStart(s);
    var r := TrimEnd(t);
    assert t[..|r|] == r;
    r
  }

  /** White space in front of a string is invisible to `trim`. */
  lemma {:induction false} TrimStartSkipsSpaces(sp: string, t: string)
    requires forall k :: 0 <= k < |sp| ==> IsWhiteSpace(sp[k])
    ensures TrimStart(sp + t) == TrimStart(t)
    decreases |sp|
  {
    if |sp| > 0 {
      assert (sp + t)[1..] == sp[1..] + t;
      TrimStartSkipsSpaces(sp[1..], t);
    } else {
      assert sp + t == t;
    }
  }

  // ---------------------------------------------------------------------
  // split and join with a string separator
  // ---------------------------------------------------------------------

  /** `s.split(sep)` for a non-empty separator: the pieces between the
      occurrences of `sep` found by a left-to-right scan. */
  function Split(s: string, sep: string): (parts: seq<string>)
    requires |sep| > 0
    ensures |parts| > 0
    decreases |s|
  {
    if |s| < |sep| then [s]
    else if s[..|sep|] == sep then [""] + Split(s[|sep|..], sep)
    else
      var rest := Split(s[1..], sep);
      [[s[0]] + rest[0]] + rest[1..]
  }

  /** `parts.join(sep)`. */
  function Join(parts: seq<string>, sep: string): string
    decreases |parts|
  {
    if |parts| == 0 then ""
    else if |parts| == 1 then parts[0]
    else parts[0] + sep + Join(parts[1..], sep)
  }

  /** Extending the first piece by one character extends the joined text by
      that character. */
  lemma JoinExtendFirst(c: char, parts: seq<string>, sep: string)
    requires |parts| > 0
    ensures Join([[c] + parts[0]] + parts[1..], sep) == [c] + Join(parts, sep)
  {
    var ext := [[c] + parts[0]] + parts[1..];
    if |parts| > 1 {
      assert ext[1..] == parts[1..];
    }
  }

  /** Joining the pieces of a split with the same separator restores the
      text: `s.split(sep).join(sep) == s`. */
  lemma {:induction false} JoinSplit(s: string, sep: string)
    requires |sep| > 0
    ensures Join(Split(s, sep), sep) == s
    decreases |s|
  {
    if |s| < |sep| {
      assert Split(s, sep) == [s];
    } else if s[..|sep|] == sep {
      var rest := Split(s[|sep|..], sep);
      var parts := [""] + rest;
      assert Split(s, sep) == parts;
      assert parts[1..] == rest;
      assert Join(parts, sep) == "" + sep + Join(rest, sep);
      JoinSplit(s[|sep|..], sep);
      assert s == sep + s[|sep|..];
    } else {
      var rest := Split(s[1..], sep);
      assert Split(s, sep) == [[s[0]] + rest[0]] + rest[1..];
      JoinSplit(s[1..], sep);
      JoinExtendFirst(s[0], rest, sep);
      assert s == [s[0]] + s[1..];
    }
  }

  /** A text free of the one-character separator `c` splits into itself. */
  lemma {:induction false} SplitWithoutSeparator(a: string, c: char)
    requires c !in a
    ensures Split(a, [c]) == [a]
    decreases |a|
  {
    if |a| >= 1 {
      assert a[..1] != [c] by { assert a[..1][0] == a[0]; }
      SplitWithoutSeparator(a[1..], c);
      assert [a[0]] + a[1..] == a;
    }
  }

  /** The first separator ends the first piece. */
  lemma {:induction false} SplitAtSeparator(a: string, c: char, b: string)
    requires c !in a
    ensures Split(a + [c] + b, [c]) == [a] + Split(b, [c])
    decreases |a|
  {
    var s := a + [c] + b;
    if |a| == 0 {
      assert s == [c] + b;
      assert s[..1] == [c];
      assert s[1..] == b;
    } else {
      assert s[..1] != [c] by { assert s[..1][0] == a[0]; }
      assert s[1..] == a[1..] + [c] + b;
      SplitAtSeparator(a[1..], c, b);
      assert [a[0]] + a[1..] == a;
    }
  }

  // ---------------------------------------------------------------------
  // replace with a global pattern
  // ---------------------------------------------------------------------

  /** The replacement text for one match, expanding the substitution codes
      of `String.prototype.replace`: `$$` is a dollar sign, `$&` the matched
      text, `` $` `` the text before the match and `$'` the text after it. The
      patterns used here have no capture groups, so `$1` and `$<` stay
      literal, as does a lone `$`. */
  function Expand(rep: string, before: string, matched: string, after: string): string
    decreases |rep|
  {
    if |rep| >= 2 && rep[0] == '$' && rep[1] == '$' then
      "$" + Expand(rep[2..], before, matched, after)
    else if |rep| >= 2 && rep[0] == '$' && rep[1] == '&' then
      matched + Expand(rep[2..], before, matched, after)
    else if |rep| >= 2 && rep[0] == '$' && rep[1] == '`' then
      before + Expand(rep[2..], before, matched, after)
    else if |rep| >= 2 && rep[0] == '$' && rep[1] == '\'' then
      after + Expand(rep[2..], before, matched, after)
    else if |rep| > 0 then
      [rep[0]] + Expand(rep[1..], before, matched, after)
    else
      ""
  }

  /** A replacement in which no `$` starts a substitution code. A lone `$`,
      as in the currency symbol `R$`, is allowed. */
  predicate IsLiteralReplacement(rep: string) {
    forall k :: 0 <= k < |rep| - 1 && rep[k] == '$' ==>
      rep[k + 1] != '$' && rep[k + 1] != '&' && rep[k + 1] != '`' && rep[k + 1] != '\''
  }

  /** A replacement without substitution codes is inserted as it stands. */
  lemma {:induction false} ExpandLiteral(rep: string, before: string, matched: string, after: string)
    requires IsLiteralReplacement(rep)
    ensures Expand(rep, before, matched, after) == rep
    decreases |rep|
  {
    if |rep| > 0 {
      assert IsLiteralReplacement(rep[1..]) by {
        forall k | 0 <= k < |rep[1..]| - 1 && rep[1..][k] == '$'
          ensures rep[1..][k + 1] != '$' && rep[1..][k + 1] != '&'
          ensures rep[1..][k + 1] != '`' && rep[1..][k + 1] != '\''
        {
          assert rep[k + 1] == '$';
        }
      }
      ExpandLiteral(rep[1..], before, matched, after);
      assert [rep[0]] + rep[1..] == rep;
    }
  }

  /** `s.replace(/pat/g, rep)` from index `i` on: every occurrence of `pat`
      found by a left-to-right scan is replaced by the expansion of `rep`;
      the inserted text is not scanned again. */
  function ReplaceFrom(s: string, pat: string, rep: string, i: nat): string
    requires |pat| > 0 && i <= |s|
    decreases |s| - i
  {
    if |s| - i < |pat| then s[i..]
    else if s[i..i + |pat|] == pat then
      Expand(rep, s[..i], pat, s[i + |pat|..]) + ReplaceFrom(s, pat, rep, i + |pat|)
    else
      [s[i]] + ReplaceFrom(s, pat, rep, i + 1)
  }

  /** `s.replace(/pat/g, rep)` for a pattern that matches `pat` literally. */
  function ReplaceAll(s: string, pat: string, rep: string): string
    requires |pat| > 0
  {
    ReplaceFrom(s, pat, rep, 0)
  }

  /** A text that starts with the separator splits into an empty first
      piece and the split of the rest. */
  lemma SplitAtLeadingSeparator(t: string, sep: string)
    requires 0 < |sep| <= |t| && t[..|sep|] == sep
    ensures Split(t, sep) == [""] + Split(t[|sep|..], sep)
  {
  }

  /** A text that does not start with the separator puts its first
      character in front of the first piece of the rest. */
  lemma SplitPastFirstChar(t: string, sep: string)
    requires 0 < |sep| <= |t| && t[..|sep|] != sep
    ensures Split(t, sep) == [[t[0]] + Split(t[1..], sep)[0]] + Split(t[1..], sep)[1..]
  {
  }

  /** An empty first piece contributes just the separator. */
  lemma JoinEmptyFirst(rest: seq<string>, sep: string)
    requires |rest| > 0
    ensures Join([""] + rest, sep) == sep + Join(rest, sep)
  {
    assert ([""] + rest)[1..] == rest;
  }

  /** Without substitution codes in the replacement, a global replace is
      the split at the pattern joined back with the replacement. */
  lemma {:induction false} ReplaceFromIsSplitJoin(s: string, pat: string, rep: string, i: nat)
    requires |pat| > 0 && i <= |s|
    requires IsLiteralReplacement(rep)
    ensures ReplaceFrom(s, pat, rep, i) == Join(Split(s[i..], pat), rep)
    decreases |s| - i
  {
    var t := s[i..];
    if |s| - i < |pat| {
      assert Split(t, pat) == [t];
    } else if s[i..i + |pat|] == pat {
      var rest := Split(s[i + |pat|..], pat);
      assert t[..|pat|] == pat;
      assert t[|pat|..] == s[i + |pat|..];
      SplitAtLeadingSeparator(t, pat);
      JoinEmptyFirst(rest, rep);
      ExpandLiteral(rep, s[..i], pat, s[i + |pat|..]);
      ReplaceFromIsSplitJoin(s, pat, rep, i + |pat|);
      calc {
        ReplaceFrom(s, pat, rep, i);
        Expand(rep, s[..i], pat, s[i + |pat|..]) + ReplaceFrom(s, pat, rep, i + |pat|);
        rep + Join(rest, rep);
        Join([""] + rest, rep);
      }
    } else {
      var rest := Split(s[i + 1..], pat);
      assert t[..|pat|] != pat by { assert t[..|pat|] == s[i..i + |pat|]; }
      assert t[1..] == s[i + 1..] && t[0] == s[i];
      SplitPastFirstChar(t, pat);
      ReplaceFromIsSplitJoin(s, pat, rep, i + 1);
      JoinExtendFirst(s[i], rest, rep);
      calc {
        ReplaceFrom(s, pat, rep, i);
        [s[i]] + ReplaceFrom(s, pat, rep, i + 1);
        [s[i]] + Join(rest, rep);
        Join([[s[i]] + rest[0]] + rest[1..], rep);
      }
    }
  }

  lemma ReplaceAllIsSplitJoin(s: string, pat: string, rep: string)
    requires |pat| > 0
    requires IsLiteralReplacement(rep)
    ensures ReplaceAll(s, pat, rep) == Join(Split(s, pat), rep)
  {
    ReplaceFromIsSplitJoin(s, pat, rep, 0);
    assert s[0..] == s;
  }

  /** A text in which the pattern does not occur is left as it is, whatever
      the replacement. */
  lemma {:induction false} ReplaceFromAbsent(s: string, pat: string, rep: string, i: nat)
    requires |pat| > 0 && i <= |s|
    requires !Includes(s[i..], pat)
    ensures ReplaceFrom(s, pat, rep, i) == s[i..]
    decreases |s| - i
  {
    if |s| - i >= |pat| {
      assert s[i..][..|pat|] == s[i..i + |pat|];
      assert s[i..][1..] == s[i + 1..];
      ReplaceFromAbsent(s, pat, rep, i + 1);
      assert [s[i]] + s[i + 1..] == s[i..];
    }
  }

  lemma ReplaceAllAbsent(s: string, pat: string, rep: string)
    requires |pat| > 0
    requires !Includes(s, pat)
    ensures ReplaceAll(s, pat, rep) == s
  {
    assert s[0..] == s;
    ReplaceFromAbsent(s, pat, rep, 0);
  }

  // ---------------------------------------------------------------------
  // Number.prototype.toString and parseInt
  // ---------------------------------------------------------------------

  function DigitChar(d: nat): char
    requires d < 10
  {
    (0x30 + d) as char
  }

  /** Decimal digits of `n`, most significant first, without leading zeros. */
  function NatToString(n: nat): (s: string)
    ensures |s| > 0
    ensures forall k :: 0 <= k < |s| ==> '0' <= s[k] <= '9'
    decreases n
  {
    if n < 10 then [DigitChar(n)] else NatToString(n / 10) + [DigitChar(n % 10)]
  }

  /** The magnitude from which `Number.prototype.toString` switches to
      exponent notation: 10^21. */
  const ExponentFrom: int := 1000000000000000000000

  /** The most significant decimal digit of `n`. */
  function LeadingDigit(n: nat): (d: nat)
    ensures d < 10
    ensures n > 0 ==> d > 0
    decreases n
  {
    if n < 10 then n else LeadingDigit(n / 10)
  }

  /** `n` without its trailing decimal zeros. */
  function DropTrailingZeros(n: nat): (m: nat)
    requires n > 0
    ensures 0 < m <= n
    decreases n
  {
    if n % 10 == 0 then DropTrailingZeros(n / 10) else n
  }

  /** The characters a written number is made of. */
  predicate IsNumberChar(c: char) {
    '0' <= c <= '9' || c == '-' || c == '.' || c == 'e' || c == '+'
  }

  /** Exponent notation for a magnitude of at least 10^21: the significant
      digits with a point after the first one (no point when there is only
      one), then `e+` and the exponent, as in "1e+21" or "1.5e+22". */
  function ExponentForm(n: nat): (s: string)
    requires n >= ExponentFrom
    ensures |s| >= 2 && s[0] == DigitChar(LeadingDigit(n)) && (s[1] == '.' || s[1] == 'e')
    ensures forall k :: 0 <= k < |s| ==> IsNumberChar(s[k])
    ensures '0' <= s[|s| - 1] <= '9'
  {
    var m := NatToString(DropTrailingZeros(n));
    var exponent := NatToString(|NatToString(n)| - 1);
    NatToStringLeads(DropTrailingZeros(n));
    DroppingZerosKeepsLead(n);
    [m[0]] + (if |m| > 1 then "." + m[1..] else "") + "e+" + exponent
  }

  /** The text of a magnitude: plain decimal digits below 10^21, exponent
      notation from there on. */
  function MagnitudeText(n: nat): (s: string)
    ensures |s| > 0 && '0' <= s[0] <= '9'
    ensures '0' <= s[|s| - 1] <= '9'
  {
    if n < ExponentFrom then NatToString(n) else ExponentForm(n)
  }

  /** `x.toString()` for an integer-valued number: a minus sign for a
      negative number, then the text of its magnitude. */
  function IntToString(x: int): (s: string)
    ensures |s| > 0 && (s[0] == '-' || '0' <= s[0] <= '9')
    ensures '0' <= s[|s| - 1] <= '9'
  {
    if x < 0 then "-" + MagnitudeText(-x) else MagnitudeText(x)
  }

  /** A written number holds only digits, signs, a point and `e`. */
  lemma NumberChars(x: int)
    ensures forall k :: 0 <= k < |IntToString(x)| ==> IsNumberChar(IntToString(x)[k])
  {
    if x < 0 {
      MagnitudeChars(-x);
      SignedChars(MagnitudeText(-x));
    } else {
      MagnitudeChars(x);
    }
  }

  lemma MagnitudeChars(n: nat)
    ensures forall k :: 0 <= k < |MagnitudeText(n)| ==> IsNumberChar(MagnitudeText(n)[k])
  {
    if n >= ExponentFrom {
      assert MagnitudeText(n) == ExponentForm(n);
    }
  }

  lemma SignedChars(t: string)
    requires forall k :: 0 <= k < |t| ==> IsNumberChar(t[k])
    ensures forall k :: 0 <= k < |"-" + t| ==> IsNumberChar(("-" + t)[k])
  {
  }

  /** The value of `c` as a base-36 digit, or 36 when it is not one. */
  function DigitValue(c: char): nat {
    if '0' <= c <= '9' then c as int - 0x30
    else if 'a' <= c <= 'z' then c as int - 0x61 + 10
    else if 'A' <= c <= 'Z' then c as int - 0x41 + 10
    else 36
  }

  /** Length of the longest prefix of `s` made of digits of `radix`. */
  function DigitRun(s: string, radix: nat): (n: nat)
    ensures n <= |s|
    ensures forall k :: 0 <= k < n ==> DigitValue(s[k]) < radix
    ensures n == |s| || DigitValue(s[n]) >= radix
    decreases |s|
  {
    if |s| > 0 && DigitValue(s[0]) < radix then 1 + DigitRun(s[1..], radix) else 0
  }

  /** The number the digit string `ds` denotes in `radix`. */
  function DigitsValue(ds: string, radix: nat): nat
    decreases |ds|
  {
    if |ds| == 0 then 0
    else DigitsValue(ds[..|ds| - 1], radix) * radix + DigitValue(ds[|ds| - 1])
  }

  /** The text after the sign: a `0x`/`0X` prefix selects base 16, and the
      longest run of digits that follows is the value; no digits at all is
      `NaN`, here `None`. Trailing text after the digits is ignored. */
  function ParseMagnitude(body: string): Option<int> {
    var hex := |body| >= 2 && body[0] == '0' && (body[1] == 'x' || body[1] == 'X');
    var radix := if hex then 16 else 10;
    var digits := if hex then body[2..] else body;
    var n := DigitRun(digits, radix);
    if n == 0 then None else Some(DigitsValue(digits[..n], radix))
  }

  function Negate(v: Option<int>): Option<int> {
    match v
    case None => None
    case Some(x) => Some(-x)
  }

  /** `parseInt(s)` with no radix: leading white space is skipped and one
      `+` or `-` sign is read before the magnitude. */
  function ParseInt(s: string): Option<int> {
    var t := TrimStart(s);
    if |t| > 0 && t[0] == '-' then Negate(ParseMagnitude(t[1..]))
    else if |t| > 0 && t[0] == '+' then ParseMagnitude(t[1..])
    else ParseMagnitude(t)
  }

  lemma {:induction false} NatToStringValue(n: nat)
    ensures DigitsValue(NatToString(n), 10) == n
    decreases n
  {
    var s := NatToString(n);
    if n >= 10 {
      NatToStringValue(n / 10);
      assert s[..|s| - 1] == NatToString(n / 10);
    }
  }

  lemma AllDigitsRun(ds: string)
    requires forall k :: 0 <= k < |ds| ==> '0' <= ds[k] <= '9'
    ensures DigitRun(ds, 10) == |ds|
  {
  }

  /** `trimStart` leaves a text that starts with a non-space alone. */
  lemma TrimStartOfNonSpace(s: string)
    requires |s| > 0 && !IsWhiteSpace(s[0])
    ensures TrimStart(s) == s
  {
    assert LeadingSpaces(s) == 0;
  }

  /** A run of decimal digits has no `0x` prefix, and `parseInt` reads
      all of it. */
  lemma DecimalDigitsAreRead(ds: string)
    requires |ds| > 0 && forall k :: 0 <= k < |ds| ==> '0' <= ds[k] <= '9'
    ensures !(|ds| >= 2 && ds[0] == '0' && (ds[1] == 'x' || ds[1] == 'X'))
    ensures DigitRun(ds, 10) == |ds| && ds[..DigitRun(ds, 10)] == ds
  {
    AllDigitsRun(ds);
    assert ds[..|ds|] == ds;
  }

  /** A run of decimal digits is read in full as a decimal magnitude. */
  lemma DecimalMagnitude(ds: string)
    requires |ds| > 0 && forall k :: 0 <= k < |ds| ==> '0' <= ds[k] <= '9'
    ensures ParseMagnitude(ds) == Some(DigitsValue(ds, 10))
  {
    DecimalDigitsAreRead(ds);
  }

  /** Text starting with a digit is read by `parseInt` as its magnitude. */
  lemma ParseUnsigned(ds: string, v: int)
    requires |ds| > 0 && '0' <= ds[0] <= '9'
    requires ParseMagnitude(ds) == Some(v)
    ensures ParseInt(ds) == Some(v)
  {
    TrimStartOfNonSpace(ds);
  }

  /** A minus sign in front of a digit negates the magnitude. */
  lemma ParseNegative(ds: string, v: int)
    requires |ds| > 0 && '0' <= ds[0] <= '9'
    requires ParseMagnitude(ds) == Some(v)
    ensures ParseInt("-" + ds) == Some(-v)
  {
    var s := "-" + ds;
    TrimStartOfNonSpace(s);
    assert s[1..] == ds;
  }

  /** `parseInt` reads back what `toString` writes, for every integer below
      10^21 in magnitude. */
  lemma ParseIntToString(x: int)
    requires -ExponentFrom < x < ExponentFrom
    ensures ParseInt(IntToString(x)) == Some(x)
  {
    var n: nat := if x < 0 then -x else x;
    var ds := NatToString(n);
    NatToStringValue(n);
    DecimalMagnitude(ds);
    if x < 0 {
      ParseNegative(ds, n);
    } else {
      ParseUnsigned(ds, n);
    }
  }

  lemma {:induction false} NatToStringLeads(n: nat)
    ensures NatToString(n)[0] == DigitChar(LeadingDigit(n))
    decreases n
  {
    if n >= 10 {
      NatToStringLeads(n / 10);
    }
  }

  lemma {:induction false} DroppingZerosKeepsLead(n: nat)
    requires n > 0
    ensures LeadingDigit(DropTrailingZeros(n)) == LeadingDigit(n)
    decreases n
  {
    if n % 10 == 0 {
      DroppingZerosKeepsLead(n / 10);
    }
  }

  /** A digit followed by a point or an `e` is read by `parseInt` as that
      one digit. */
  lemma SingleDigitMagnitude(s: string)
    requires |s| >= 2 && '0' <= s[0] <= '9' && (s[1] == '.' || s[1] == 'e')
    ensures ParseMagnitude(s) == Some(DigitValue(s[0]))
  {
    assert DigitValue(s[1]) >= 10;
    assert DigitRun(s[1..], 10) == 0;
    assert DigitRun(s, 10) == 1;
    assert s[..1] == [s[0]];
    assert DigitsValue(s[..1], 10) == DigitsValue([], 10) * 10 + DigitValue(s[0]) by {
      assert s[..1][..0] == [];
    }
  }

  /** From 10^21 on, `parseInt` does not read back what `toString` writes:
      it stops at the point or the `e`, so it reads the sign and the leading
      digit alone, and `parseInt("1e+21")` is 1. */
  lemma ParseIntOfExponentForm(x: int)
    requires x <= -ExponentFrom || ExponentFrom <= x
    ensures x < 0 ==> ParseInt(IntToString(x)) == Negate(Some(LeadingDigit(-x)))
    ensures x >= 0 ==> ParseInt(IntToString(x)) == Some(LeadingDigit(x))
    ensures ParseInt(IntToString(x)) != Some(x)
  {
    var n: nat := if x < 0 then -x else x;
    SignAndMagnitude(x);
    if x < 0 {
      ParseNegativeExponentForm(n);
    } else {
      ExponentTextMagnitude(n);
      ParseUnsigned(MagnitudeText(n), LeadingDigit(n));
    }
  }

  lemma ParseNegativeExponentForm(n: nat)
    requires n >= ExponentFrom
    ensures ParseInt("-" + MagnitudeText(n)) == Negate(Some(LeadingDigit(n)))
  {
    ExponentTextMagnitude(n);
    ParseNegative(MagnitudeText(n), LeadingDigit(n));
  }

  /** The written number is the sign followed by the magnitude's text. */
  lemma SignAndMagnitude(x: int)
    ensures x < 0 ==> IntToString(x) == "-" + MagnitudeText(-x)
    ensures x >= 0 ==> IntToString(x) == MagnitudeText(x)
  {
  }

  lemma ExponentTextMagnitude(n: nat)
    requires n >= ExponentFrom
    ensures |MagnitudeText(n)| > 0 && '0' <= MagnitudeText(n)[0] <= '9'
    ensures ParseMagnitude(MagnitudeText(n)) == Some(LeadingDigit(n))
  {
    var s := ExponentForm(n);
    assert MagnitudeText(n) == s;
    SingleDigitMagnitude(s);
    assert DigitValue(DigitChar(LeadingDigit(n))) == LeadingDigit(n);
  }

  /** Trimming a padded text whose ends are not white space gives it back. */
  lemma TrimPadded(sp: string, s: string)
    requires forall k :: 0 <= k < |sp| ==> IsWhiteSpace(sp[k])
    requires |s| > 0 && !IsWhiteSpace(s[0]) && !IsWhiteSpace(s[|s| - 1])
    ensures Trim(sp + s) == s
  {
    TrimStartSkipsSpaces(sp, s);
    assert TrimStart(s) == s;
    assert TrailingSpaces(s) == 0;
  }

  /** `parseInt` after `trim` ignores white space on either side. */
  lemma ParseTrimmedPaddedInt(sp: string, x: int)
    requires forall k :: 0 <= k < |sp| ==> IsWhiteSpace(sp[k])
    ensures Trim(sp + IntToString(x)) == IntToString(x)
  {
    TrimPadded(sp, IntToString(x));
  }

  // ---------------------------------------------------------------------
  // length in UTF-16 code units
  // ---------------------------------------------------------------------

  /** `s.length`: characters beyond the Basic Multilingual Plane take two
      UTF-16 code units. */
  function Utf16Length(s: string): (n: nat)
    ensures |s| <= n <= 2 * |s|
    decreases |s|
  {
    if |s| == 0 then 0 else (if s[0] as int > 0xFFFF then 2 else 1) + Utf16Length(s[1..])
  }
}
