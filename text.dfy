/**
 * String helpers shared by the form validators and parsers: JavaScript's
 * whitespace class and `trim`, `split` on one character, decimal numerals
 * (`parseInt(s, 10)` on digit strings, `toString` of a number, `padStart(2, '0')`)
 * and the e-mail pattern `^[^\s@]+@[^\s@]+\.[^\s@]+$` written out as a
 * character predicate.
 */
module Text {
  import opened Wrappers

  // ---------------------------------------------------------------- whitespace

  /** JavaScript's `\s`, which is also the set `String.prototype.trim` removes. */
  predicate IsSpace(c: char) {
    c == ' ' || c == '\t' || c == '\n' || c == '\r' || c == '\U{B}' || c == '\U{C}'
    || c == '\U{A0}' || c == '\U{1680}' || ('\U{2000}' <= c <= '\U{200A}')
    || c == '\U{2028}' || c == '\U{2029}' || c == '\U{202F}' || c == '\U{205F}'
    || c == '\U{3000}' || c == '\U{FEFF}'
  }

  /** Empty or whitespace only: the strings for which `!s.trim()` holds. */
  predicate IsBlank(s: string) {
    forall i :: 0 <= i < |s| ==> IsSpace(s[i])
  }

  function TrimStart(s: string): (r: string)
    ensures |r| <= |s| && r == s[|s| - |r|..]
    ensures forall i :: 0 <= i < |s| - |r| ==> IsSpace(s[i])
    ensures r == [] || !IsSpace(r[0])
  {
    if s != [] && IsSpace(s[0]) then TrimStart(s[1..]) else s
  }

  function TrimEnd(s: string): (r: string)
    ensures |r| <= |s| && r == s[..|r|]
    ensures forall i :: |r| <= i < |s| ==> IsSpace(s[i])
    ensures r == [] || !IsSpace(r[|r| - 1])
  {
    if s != [] && IsSpace(s[|s| - 1]) then TrimEnd(s[..|s| - 1]) else s
  }

  /** `s.trim()`: the longest infix of `s` that neither starts nor ends with whitespace. */
  function Trim(s: string): (r: string)
    ensures |r| <= |s|
    ensures r == [] <==> IsBlank(s)
    ensures r == [] || (!IsSpace(r[0]) && !IsSpace(r[|r| - 1]))
    ensures (s == [] || (!IsSpace(s[0]) && !IsSpace(s[|s| - 1]))) ==> r == s
  {
    var t := TrimStart(s);
    var r := TrimEnd(t);
    assert r == [] ==> IsBlank(s) by {
      if r == [] {
        assert t == [];
      }
    }
    r
  }

  /** What `trim` keeps is an infix of its input with nothing but white space around it. */
  lemma TrimIsAnInfix(s: string)
    ensures exists i, j :: 0 <= i <= j <= |s| && Trim(s) == s[i..j] && IsBlank(s[..i]) && IsBlank(s[j..])
  {
    var i, j := TrimBounds(s);
    assert Trim(s) == s[i..j];
  }

  /** Where the text `trimEnd` after `trimStart` keeps begins and ends in the input. */
  lemma TrimBounds(s: string) returns (i: nat, j: nat)
    ensures i <= j <= |s| && TrimEnd(TrimStart(s)) == s[i..j] && IsBlank(s[..i]) && IsBlank(s[j..])
  {
    var t := TrimStart(s);
    var r := TrimEnd(t);
    i, j := |s| - |t|, |s| - |t| + |r|;
    assert t == s[i..];
    assert r == s[i..j] by {
      assert t[..|r|] == s[i..j];
    }
    assert IsBlank(s[..i]) by {
      TrimStartDropsBlank(s);
    }
    assert IsBlank(s[j..]) by {
      TrimEndDropsBlank(t);
      assert t[|r|..] == s[j..];
    }
  }

  /** What `trimStart` drops is blank. */
  lemma TrimStartDropsBlank(s: string)
    ensures IsBlank(s[..|s| - |TrimStart(s)|])
  {
    var i := |s| - |TrimStart(s)|;
    forall k | 0 <= k < i ensures IsSpace(s[..i][k]) {
      assert s[..i][k] == s[k];
    }
  }

  /** What `trimEnd` drops is blank. */
  lemma TrimEndDropsBlank(t: string)
    ensures IsBlank(t[|TrimEnd(t)|..])
  {
    var j := |TrimEnd(t)|;
    forall k | 0 <= k < |t| - j ensures IsSpace(t[j..][k]) {
      assert t[j..][k] == t[j + k];
    }
  }

  /**
   * The partner of `Trim`: any infix with white space only around it and no
   * white space at either end is the trimmed text.
   */
  lemma TrimIsTheInfix(s: string, i: nat, j: nat)
    requires i < j <= |s| && !IsSpace(s[i]) && !IsSpace(s[j - 1])
    requires IsBlank(s[..i]) && IsBlank(s[j..])
    ensures Trim(s) == s[i..j]
  {
    TrimStartAt(s, i);
    TrimEndAt(s, i, j);
  }

  /** `trimStart` stops at the first character that is not white space. */
  lemma TrimStartAt(s: string, i: nat)
    requires i < |s| && !IsSpace(s[i]) && IsBlank(s[..i])
    ensures TrimStart(s) == s[i..]
  {
    forall m | 0 <= m < i ensures IsSpace(s[m]) {
      assert s[..i][m] == s[m];
    }
  }

  /** `trimEnd` stops at the last character that is not white space. */
  lemma TrimEndAt(s: string, i: nat, j: nat)
    requires i < j <= |s| && !IsSpace(s[j - 1]) && IsBlank(s[j..])
    ensures TrimEnd(s[i..]) == s[i..j]
  {
    var t := s[i..];
    forall m | j - i <= m < |t| ensures IsSpace(t[m]) {
      assert s[j..][m - (j - i)] == t[m];
    }
    assert t[..j - i] == s[i..j];
  }

  // ---------------------------------------------------------------- split / join

  /** `s.split(sep)` for a one-character separator: always at least one part. */
  function Split(s: string, sep: char): (parts: seq<string>)
    ensures |parts| >= 1
    ensures forall i :: 0 <= i < |parts| ==> sep !in parts[i]
    ensures Join(parts, sep) == s
  {
    if s == [] then [""]
    else
      var rest := Split(s[1..], sep);
      if s[0] == sep then [""] + rest
      else [[s[0]] + rest[0]] + rest[1..]
  }

  /** `parts.join(sep)`, the partner of Split. */
  function Join(parts: seq<string>, sep: char): string
    requires |parts| >= 1
  {
    if |parts| == 1 then parts[0] else parts[0] + [sep] + Join(parts[1..], sep)
  }

  lemma {:induction false} SplitNoSeparator(s: string, sep: char)
    requires sep !in s
    ensures Split(s, sep) == [s]
  {
    if s != [] {
      SplitNoSeparator(s[1..], sep);
      assert [s[0]] + s[1..] == s;
    }
  }

  lemma {:induction false} SplitAfterPart(a: string, sep: char, rest: string)
    requires sep !in a
    ensures Split(a + [sep] + rest, sep) == [a] + Split(rest, sep)
  {
    var s := a + [sep] + rest;
    if a == [] {
      assert s == [sep] + rest;
      assert s[1..] == rest;
    } else {
      assert s[0] == a[0] != sep;
      assert s[1..] == a[1..] + [sep] + rest;
      SplitAfterPart(a[1..], sep, rest);
      var tail := Split(s[1..], sep);
      assert tail == [a[1..]] + Split(rest, sep);
      assert Split(s, sep) == [[a[0]] + tail[0]] + tail[1..];
      assert [a[0]] + a[1..] == a;
    }
  }

  /** Splitting a join of separator-free parts gives the parts back. */
  lemma {:induction false} SplitJoin(parts: seq<string>, sep: char)
    requires |parts| >= 1
    requires forall i :: 0 <= i < |parts| ==> sep !in parts[i]
    ensures Split(Join(parts, sep), sep) == parts
  {
    if |parts| == 1 {
      SplitNoSeparator(parts[0], sep);
    } else {
      SplitJoin(parts[1..], sep);
      SplitAfterPart(parts[0], sep, Join(parts[1..], sep));
      assert [parts[0]] + parts[1..] == parts;
    }
  }

  /** Three separator-free parts joined by the separator split back into those parts. */
  lemma SplitThree(a: string, b: string, c: string, sep: char)
    requires sep !in a && sep !in b && sep !in c
    ensures Split(a + [sep] + b + [sep] + c, sep) == [a, b, c]
  {
    SplitAfterPart(a, sep, b + [sep] + c);
    SplitAfterPart(b, sep, c);
    SplitNoSeparator(c, sep);
    assert a + [sep] + b + [sep] + c == a + [sep] + (b + [sep] + c);
  }

  // ---------------------------------------------------------------- decimal numerals

  predicate IsDigit(c: char) {
    '0' <= c <= '9'
  }

  /** A non-empty run of decimal digits: what `parseInt(s, 10)` reads without a NaN. */
  predicate IsNumeral(s: string) {
    |s| > 0 && forall i :: 0 <= i < |s| ==> IsDigit(s[i])
  }

  function DigitChar(d: nat): (c: char)
    requires d < 10
    ensures IsDigit(c) && c as int - '0' as int == d
  {
    ['0', '1', '2', '3', '4', '5', '6', '7', '8', '9'][d]
  }

  function NumeralValue(s: string): nat
    requires forall i :: 0 <= i < |s| ==> IsDigit(s[i])
  {
    if s == [] then 0
    else
      assert IsDigit(s[|s| - 1]);
      10 * NumeralValue(s[..|s| - 1]) + (s[|s| - 1] as int - '0' as int)
  }

  /** `parseInt(s, 10)`, with None for NaN; signs and trailing garbage are not read. */
  function ParseNat(s: string): Option<nat> {
    if IsNumeral(s) then Some(NumeralValue(s)) else None
  }

  /** `String(n)` for a non-negative integer. */
  function NatToString(n: nat): (s: string)
    ensures IsNumeral(s)
    ensures n < 10 <==> |s| == 1
  {
    if n < 10 then [DigitChar(n)] else NatToString(n / 10) + [DigitChar(n % 10)]
  }

  /** `String(i)` for any integer. */
  function IntToString(i: int): string {
    if i < 0 then "-" + NatToString(-i) else NatToString(i)
  }

  /** Reading back a printed number gives the number. */
  lemma {:induction false} NatToStringRoundTrip(n: nat)
    ensures NumeralValue(NatToString(n)) == n
  {
    if n >= 10 {
      NatToStringRoundTrip(n / 10);
      var s := NatToString(n);
      assert s[..|s| - 1] == NatToString(n / 10);
    }
  }

  lemma {:induction false} ParseNatToString(n: nat)
    ensures ParseNat(NatToString(n)) == Some(n)
  {
    NatToStringRoundTrip(n);
  }

  /** Leading zeros do not change the value of a numeral. */
  lemma {:induction false} NumeralLeadingZero(s: string)
    requires forall i :: 0 <= i < |s| ==> IsDigit(s[i])
    ensures NumeralValue("0" + s) == NumeralValue(s)
  {
    if s != [] {
      NumeralLeadingZero(s[..|s| - 1]);
      assert ("0" + s)[..|"0" + s| - 1] == "0" + s[..|s| - 1];
    }
  }

  /** `s.padStart(2, '0')`. */
  function PadStart2(s: string): (r: string)
    ensures |r| == if |s| < 2 then 2 else |s|
    ensures r[|r| - |s|..] == s
    ensures forall i :: 0 <= i < |r| - |s| ==> r[i] == '0'
  {
    if |s| == 0 then "00" else if |s| == 1 then "0" + s else s
  }

  /** `String(n).padStart(2, '0')` for n < 100 is exactly its two digits. */
  lemma TwoDigits(n: nat)
    requires n < 100
    ensures PadStart2(NatToString(n)) == [DigitChar(n / 10), DigitChar(n % 10)]
  {
  }

  /** A zero-padded number reads back as the number. */
  lemma ParsePadded(n: nat)
    ensures ParseNat(PadStart2(NatToString(n))) == Some(n)
  {
    var s := NatToString(n);
    NatToStringRoundTrip(n);
    if |s| == 1 {
      NumeralLeadingZero(s);
    }
  }

  /** A zero-padded number is still a numeral. */
  lemma PaddedNumeral(n: nat)
    ensures IsNumeral(PadStart2(NatToString(n)))
  {
    var s := NatToString(n);
    var r := PadStart2(s);
    forall i | 0 <= i < |r| ensures IsDigit(r[i]) {
      if i >= |r| - |s| {
        assert r[i] == r[|r| - |s|..][i - (|r| - |s|)];
      }
    }
  }

  /** A numeral holds no character other than digits. */
  lemma NumeralExcludes(s: string, c: char)
    requires IsNumeral(s) && !IsDigit(c)
    ensures c !in s
  {
  }

  /** The longest run of decimal digits at the start of `s`. */
  function DigitPrefix(s: string): (p: string)
    ensures |p| <= |s| && p == s[..|p|]
    ensures forall i :: 0 <= i < |p| ==> IsDigit(p[i])
    ensures |p| < |s| ==> !IsDigit(s[|p|])
  {
    if s == [] || !IsDigit(s[0]) then [] else [s[0]] + DigitPrefix(s[1..])
  }

  /** `s` with one leading `+` or `-` removed. */
  function Unsigned(s: string): string {
    if s != [] && (s[0] == '+' || s[0] == '-') then s[1..] else s
  }

  /**
   * `parseInt(s, 10)`: leading white space is skipped, one sign is read, then
   * the longest run of digits; anything after it is ignored. None stands for
   * NaN, the result when no digit follows the sign.
   */
  function ParseIntJs(s: string): (r: Option<int>)
    ensures r.None? <==> !IsNumeral(DigitPrefix(Unsigned(TrimStart(s))))
  {
    var t := TrimStart(s);
    var digits := DigitPrefix(Unsigned(t));
    var magnitude: int := NumeralValue(digits);
    if digits == [] then None
    else if t[0] == '-' then Some(-magnitude)
    else Some(magnitude)
  }

  /** The digits of a numeral followed by anything that does not start with a digit. */
  lemma {:induction false} DigitPrefixOfNumeral(a: string, b: string)
    requires IsNumeral(a) && (b == [] || !IsDigit(b[0]))
    ensures DigitPrefix(a + b) == a
  {
    assert (a + b)[0] == a[0];
    assert (a + b)[1..] == a[1..] + b;
    if |a| > 1 {
      DigitPrefixOfNumeral(a[1..], b);
    } else {
      assert a[1..] + b == b;
    }
  }

  /** Digits and signs are not white space, so `trimStart` keeps them. */
  lemma SignNotSpace(c: char)
    requires IsDigit(c) || c == '-' || c == '+'
    ensures !IsSpace(c)
  {
  }

  /** `parseInt` stops at the first character after the digits: `parseInt("15th") == 15`. */
  lemma ParseIntIgnoresTail(a: string, b: string)
    requires IsNumeral(a) && (b == [] || !IsDigit(b[0]))
    ensures ParseIntJs(a + b) == Some(NumeralValue(a))
  {
    var s := a + b;
    DigitPrefixOfNumeral(a, b);
    assert s[0] == a[0];
    SignNotSpace(s[0]);
    assert TrimStart(s) == s;
    assert Unsigned(s) == s;
  }

  /** A string starting with `-` reads as the negated digits that follow the sign. */
  lemma ParseIntAfterMinus(s: string)
    requires |s| > 0 && s[0] == '-'
    ensures DigitPrefix(s[1..]) == [] ==> ParseIntJs(s) == None
    ensures DigitPrefix(s[1..]) != [] ==> ParseIntJs(s) == Some(-(NumeralValue(DigitPrefix(s[1..])) as int))
  {
    SignNotSpace(s[0]);
    assert TrimStart(s) == s;
  }

  /** On a plain numeral `parseInt` agrees with the strict reading. */
  lemma ParseIntOfNumeral(s: string)
    requires IsNumeral(s)
    ensures ParseIntJs(s) == Some(NumeralValue(s))
  {
    ParseIntIgnoresTail(s, []);
    assert s + [] == s;
  }

  /** A blank string, and a lone sign, read as NaN. */
  lemma ParseIntNaN(s: string)
    ensures IsBlank(s) ==> ParseIntJs(s) == None
    ensures ParseIntJs("-") == None && ParseIntJs("") == None
  {
    if IsBlank(s) {
      ParseIntOfBlank(s);
    }
    ParseIntAfterMinus("-");
    assert DigitPrefix(Unsigned(TrimStart(""))) == [];
  }

  /** Nothing but white space: `trimStart` leaves nothing to read. */
  lemma ParseIntOfBlank(s: string)
    requires IsBlank(s)
    ensures ParseIntJs(s) == None
  {
    TrimStartOfBlank(s);
    assert DigitPrefix(Unsigned([])) == [];
  }

  /** `trimStart` drops the whole of a blank string. */
  lemma {:induction false} TrimStartOfBlank(s: string)
    requires IsBlank(s)
    ensures TrimStart(s) == []
  {
    if s != [] {
      assert IsBlank(s[1..]) by {
        forall k | 0 <= k < |s| - 1 ensures IsSpace(s[1..][k]) {
          assert s[1..][k] == s[k + 1];
        }
      }
      TrimStartOfBlank(s[1..]);
    }
  }

  /** Text without a minus sign never reads as a negative number. */
  lemma ParseIntWithoutMinus(s: string)
    requires '-' !in s
    ensures ParseIntJs(s).Some? ==> ParseIntJs(s).value >= 0
  {
    var t := TrimStart(s);
    if t != [] {
      assert t[0] == s[|s| - |t|];
    }
  }

  // ---------------------------------------------------------------- UTF-16 length

  /**
   * `s.length`: JavaScript counts UTF-16 code units, so a character outside
   * the Basic Multilingual Plane (an emoji, say) counts twice.
   */
  function Utf16Length(s: string): (n: nat)
    ensures |s| <= n <= 2 * |s|
    ensures (forall i :: 0 <= i < |s| ==> s[i] < '\U{10000}') ==> n == |s|
  {
    if s == [] then 0
    else (if s[0] < '\U{10000}' then 1 else 2) + Utf16Length(s[1..])
  }

  /** Three key emoji are six code units long, as `length` counts them. */
  lemma Utf16LengthOfAstral()
    ensures |"\U{1F511}\U{1F511}\U{1F511}"| == 3
    ensures Utf16Length("\U{1F511}\U{1F511}\U{1F511}") == 6
  {
    var s := "\U{1F511}\U{1F511}\U{1F511}";
    assert s[1..][1..] == "\U{1F511}";
  }

  // ---------------------------------------------------------------- e-mail pattern

  /** One character of the class `[^\s@]`. */
  predicate EmailChar(c: char) {
    !IsSpace(c) && c != '@'
  }

  predicate AllEmailChars(s: string) {
    forall i :: 0 <= i < |s| ==> EmailChar(s[i])
  }

  /**
   * The whole of `s` matches `^[^\s@]+@[^\s@]+\.[^\s@]+$`: a non-empty local part,
   * the `@` at index `at`, a non-empty domain part, a `.` at index `dot`, and a
   * non-empty last part, none of the three parts holding whitespace or `@`.
   */
  predicate MatchesEmailPattern(s: string) {
    exists at, dot | 0 < at < |s| && 0 < dot < |s| ::
      at + 1 < dot < |s| - 1 && s[at] == '@' && s[dot] == '.'
      && AllEmailChars(s[..at]) && AllEmailChars(s[at + 1..dot]) && AllEmailChars(s[dot + 1..])
  }

  /** Around the `@` and the dot the pattern picked, every character is an email character. */
  lemma EmailPartsChars(s: string, at: int, dot: int)
    requires 0 < at && at + 1 < dot < |s| - 1 && s[dot] == '.'
    requires AllEmailChars(s[..at]) && AllEmailChars(s[at + 1..dot]) && AllEmailChars(s[dot + 1..])
    ensures forall j :: 0 <= j < |s| && j != at ==> EmailChar(s[j])
  {
    forall j | 0 <= j < |s| && j != at ensures EmailChar(s[j]) {
      if j < at {
        assert s[..at][j] == s[j];
      } else if j < dot {
        assert s[at + 1..dot][j - at - 1] == s[j];
      } else if j > dot {
        assert s[dot + 1..][j - dot - 1] == s[j];
      }
    }
  }

  /** An address the pattern accepts holds no whitespace and exactly one `@`, and is never blank. */
  lemma EmailPatternShape(s: string)
    requires MatchesEmailPattern(s)
    ensures forall i :: 0 <= i < |s| ==> !IsSpace(s[i])
    ensures exists at :: 0 < at < |s| && s[at] == '@' && forall j :: 0 <= j < |s| && j != at ==> s[j] != '@'
    ensures !IsBlank(s) && |s| >= 5
  {
    var at, dot :| 0 < at < |s| && 0 < dot < |s| && at + 1 < dot < |s| - 1 && s[at] == '@' && s[dot] == '.'
      && AllEmailChars(s[..at]) && AllEmailChars(s[at + 1..dot]) && AllEmailChars(s[dot + 1..]);
    EmailPartsChars(s, at, dot);
    forall i | 0 <= i < |s| ensures !IsSpace(s[i]) {
      if i == at {
        AtNotSpace(s[i]);
      } else {
        assert EmailChar(s[i]);
      }
    }
    assert !IsBlank(s) by {
      assert !IsSpace(s[0]);
    }
  }

  lemma AtNotSpace(c: char)
    requires c == '@'
    ensures !IsSpace(c)
  {
  }

  /** A plain address is accepted: local part, `@`, domain, `.`, top-level part. */
  lemma EmailPatternAccepts()
    ensures MatchesEmailPattern("ram@mail.np")
  {
    var s := "ram@mail.np";
    assert s[3] == '@' && s[8] == '.';
    assert AllEmailChars(s[..3]) && AllEmailChars(s[4..8]) && AllEmailChars(s[9..]);
  }

  /** Two refused addresses: no dot after the `@`, and a space inside. */
  lemma EmailPatternRefuses()
    ensures !MatchesEmailPattern("ram@mail")
    ensures !MatchesEmailPattern("ram @mail.np")
  {
    WhitespaceRefused("ram @mail.np", 3);
  }

  /** An address with white space anywhere in it does not match. */
  lemma WhitespaceRefused(s: string, k: nat)
    requires k < |s| && IsSpace(s[k])
    ensures !MatchesEmailPattern(s)
  {
    if MatchesEmailPattern(s) {
      EmailPatternShape(s);
    }
  }

  // ---------------------------------------------------------------- optional strings

  /** `s || null` and `s || undefined`: an empty string is sent as no value at all. */
  function NoneIfEmpty(s: string): (r: Option<string>)
    ensures r.None? <==> s == ""
    ensures r.Some? ==> r.value == s
  {
    if s == "" then None else Some(s)
  }

  // ---------------------------------------------------------------- e-mail field rule

  /**
   * The rule both account forms apply to the e-mail field: `'Required'` when it
   * is blank, `'Invalid email'` when the untrimmed text does not match the
   * pattern, no error otherwise.
   */
  function EmailError(email: string): (e: Option<string>)
    ensures e == Some("Required") <==> IsBlank(email)
    ensures e == Some("Invalid email") <==> !IsBlank(email) && !MatchesEmailPattern(email)
    ensures e.None? <==> MatchesEmailPattern(email)
  {
    if IsBlank(email) then Some("Required")
    else if !MatchesEmailPattern(email) then Some("Invalid email")
    else None
  }

  /** Reading `obj[k]` of a string-valued object, a missing key reading as `''`. */
  function Lookup<K>(m: map<K, string>, k: K): (v: string)
    ensures k in m ==> v == m[k]
    ensures k !in m ==> v == ""
  {
    if k in m then m[k] else ""
  }
}
