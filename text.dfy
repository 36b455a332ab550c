/**
 * The string rules the submission forms apply: JavaScript's `trim()`, its `length`,
 * and the two regular expressions of the registration and login forms, written as
 * explicit predicates and proved equal to the shape each pattern describes.
 */
module Text {

  /**
   * JavaScript whitespace: the WhiteSpace and LineTerminator characters of ECMAScript,
   * which are both what `\s` matches and what `trim()` strips.
   */
  predicate IsSpace(c: char)
  {
    || c == '\t' || c == '\n' || c == '\U{000B}' || c == '\U{000C}' || c == '\r' || c == ' '
    || c == '\U{00A0}' || c == '\U{1680}' || ('\U{2000}' <= c <= '\U{200A}')
    || c == '\U{2028}' || c == '\U{2029}' || c == '\U{202F}' || c == '\U{205F}'
    || c == '\U{3000}' || c == '\U{FEFF}'
  }

  predicate AllSpace(s: string)
  {
    forall k | 0 <= k < |s| :: IsSpace(s[k])
  }

  /** The number of whitespace characters `s` starts with. */
  function LeadingSpaces(s: string): (n: nat)
    ensures n <= |s|
    ensures forall k | 0 <= k < n :: IsSpace(s[k])
    ensures n < |s| ==> !IsSpace(s[n])
    decreases |s|
  {
    if |s| > 0 && IsSpace(s[0]) then
      var n := 1 + LeadingSpaces(s[1..]);
      assert forall k | 1 <= k < n :: s[k] == s[1..][k - 1];
      n
    else
      0
  }

  /**
   * Where the text of `s[lo..]` ends once trailing whitespace is cut, searching back from
   * `hi`, past which `s` holds only whitespace.
   */
  function TextEnd(s: string, lo: nat, hi: nat): (j: nat)
    requires lo <= hi <= |s|
    requires forall k | hi <= k < |s| :: IsSpace(s[k])
    ensures lo <= j <= hi
    ensures forall k | j <= k < |s| :: IsSpace(s[k])
    ensures j > lo ==> !IsSpace(s[j - 1])
    decreases hi
  {
    if hi > lo && IsSpace(s[hi - 1]) then TextEnd(s, lo, hi - 1) else hi
  }

  /**
   * JavaScript's `s.trim()`: the result is the piece of `s` left once the whitespace is
   * cut from each end; it neither starts nor ends with whitespace, and it is empty
   * exactly when `s` is all whitespace.
   */
  function Trim(s: string): (r: string)
    ensures |r| <= |s|
    ensures var i := LeadingSpaces(s);
              && i + |r| <= |s| && r == s[i..i + |r|]
              && (forall k | 0 <= k < i :: IsSpace(s[k]))
              && (forall k | i + |r| <= k < |s| :: IsSpace(s[k]))
    ensures r != "" ==> !IsSpace(r[0]) && !IsSpace(r[|r| - 1])
    ensures r == "" <==> AllSpace(s)
  {
    var i := LeadingSpaces(s);
    var j := TextEnd(s, i, |s|);
    s[i..j]
  }

  /** `!s.trim()`: the field holds nothing but whitespace. */
  predicate IsBlank(s: string)
  {
    Trim(s) == ""
  }

  /**
   * JavaScript's `s.length`, which counts UTF-16 code units: a character outside the
   * Basic Multilingual Plane counts twice.
   */
  function Utf16Length(s: string): (n: nat)
    ensures |s| <= n <= 2 * |s|
    ensures (forall k | 0 <= k < |s| :: s[k] <= '\U{FFFF}') ==> n == |s|
  {
    if s == "" then 0 else (if s[0] <= '\U{FFFF}' then 1 else 2) + Utf16Length(s[1..])
  }

  /** How many times `c` occurs in `s`. */
  function Count(s: string, c: char): (n: nat)
    ensures n <= |s|
    ensures n == 0 <==> forall k | 0 <= k < |s| :: s[k] != c
  {
    if s == "" then 0 else (if s[0] == c then 1 else 0) + Count(s[1..], c)
  }

  /** The index of the first `c` in `s`, or `|s|` when there is none. */
  function IndexOf(s: string, c: char): (i: nat)
    ensures i <= |s|
    ensures i < |s| ==> s[i] == c
    ensures forall k | 0 <= k < i :: s[k] != c
  {
    if s == "" then 0 else if s[0] == c then 0 else 1 + IndexOf(s[1..], c)
  }

  /** Every occurrence of `c` other than the first lies after the first. */
  lemma {:induction false} CountAfterFirst(s: string, c: char)
    requires IndexOf(s, c) < |s|
    ensures Count(s, c) == 1 + Count(s[IndexOf(s, c) + 1..], c)
  {
    if s[0] != c {
      CountAfterFirst(s[1..], c);
      assert s[1..][IndexOf(s[1..], c) + 1..] == s[IndexOf(s, c) + 1..];
    }
  }

  // ---------------------------------------------------------------------------
  // The e-mail rule, /^[^\s@]+@[^\s@]+\.[^\s@]+$/

  /** A non-empty run of the class `[^\s@]`. */
  predicate IsAtom(t: string)
  {
    |t| > 0 && forall k | 0 <= k < |t| :: !IsSpace(t[k]) && t[k] != '@'
  }

  /** `s` matches the e-mail pattern with its '@' at `at` and its literal '.' at `dot`. */
  ghost predicate EmailSplit(s: string, at: int, dot: int)
  {
    && 0 <= at < dot < |s|
    && s[at] == '@' && s[dot] == '.'
    && IsAtom(s[..at]) && IsAtom(s[at + 1..dot]) && IsAtom(s[dot + 1..])
  }

  /** `s` matches the e-mail pattern, for some choice of the '@' and the '.'. */
  ghost predicate MatchesEmailPattern(s: string)
  {
    exists at, dot :: EmailSplit(s, at, dot)
  }

  /** The domain part has a '.' that is neither its first nor its last character. */
  predicate HasInnerDot(d: string)
  {
    exists k | 0 < k < |d| - 1 :: d[k] == '.'
  }

  /**
   * The e-mail rule shared by the registration and login forms: no whitespace, exactly
   * one '@', something before it, and a '.' strictly inside the part after it.
   */
  predicate IsEmail(s: string)
  {
    var at := IndexOf(s, '@');
    && (forall k | 0 <= k < |s| :: !IsSpace(s[k]))
    && Count(s, '@') == 1
    && 0 < at < |s|
    && HasInnerDot(s[at + 1..])
  }

  lemma EmailRuleMatchesPattern(s: string)
    requires IsEmail(s)
    ensures MatchesEmailPattern(s)
  {
    var at := IndexOf(s, '@');
    var d := s[at + 1..];
    var k :| 0 < k < |d| - 1 && d[k] == '.';
    var dot := at + 1 + k;
    CountAfterFirst(s, '@');
    assert forall m | at < m < |s| :: s[m] != '@' by {
      forall m | at < m < |s| ensures s[m] != '@' {
        assert s[m] == d[m - at - 1];
      }
    }
    var middle, last := s[at + 1..dot], s[dot + 1..];
    forall m | 0 <= m < |middle| ensures !IsSpace(middle[m]) && middle[m] != '@' {
      assert middle[m] == s[at + 1 + m];
    }
    forall m | 0 <= m < |last| ensures !IsSpace(last[m]) && last[m] != '@' {
      assert last[m] == s[dot + 1 + m];
    }
    assert EmailSplit(s, at, dot);
  }

  /** In a split of the e-mail pattern, no character is whitespace and only the split's '@' is one. */
  lemma EmailSplitCharacters(s: string, at: int, dot: int)
    requires EmailSplit(s, at, dot)
    ensures forall m | 0 <= m < |s| :: !IsSpace(s[m]) && (m != at ==> s[m] != '@')
  {
    var first, middle, last := s[..at], s[at + 1..dot], s[dot + 1..];
    forall m | 0 <= m < |s| ensures !IsSpace(s[m]) && (m != at ==> s[m] != '@') {
      if m < at {
        assert s[m] == first[m];
      } else if at < m < dot {
        assert s[m] == middle[m - at - 1];
      } else if dot < m {
        assert s[m] == last[m - dot - 1];
      }
    }
  }

  lemma PatternMatchesEmailRule(s: string)
    requires MatchesEmailPattern(s)
    ensures IsEmail(s)
  {
    var at, dot :| EmailSplit(s, at, dot);
    EmailSplitCharacters(s, at, dot);
    assert IndexOf(s, '@') == at;
    CountAfterFirst(s, '@');
    var d := s[at + 1..];
    forall m | 0 <= m < |d| ensures d[m] != '@' {
      assert d[m] == s[at + 1 + m];
    }
    assert d[dot - at - 1] == '.';
  }

  /** The hand-written e-mail rule accepts exactly the strings the regular expression accepts. */
  lemma EmailRuleIsPattern(s: string)
    ensures IsEmail(s) <==> MatchesEmailPattern(s)
  {
    if IsEmail(s) {
      EmailRuleMatchesPattern(s);
    }
    if MatchesEmailPattern(s) {
      PatternMatchesEmailRule(s);
    }
  }

  // ---------------------------------------------------------------------------
  // The phone rule, /^\+?[1-9]\d{1,14}$/

  /** `\d`: an ASCII decimal digit. */
  predicate IsDigit(c: char)
  {
    '0' <= c <= '9'
  }

  /** The characters after the optional leading '+'. */
  function PhoneDigits(s: string): (d: string)
    ensures |s| > 0 && s[0] == '+' ==> d == s[1..]
    ensures !(|s| > 0 && s[0] == '+') ==> d == s
  {
    if |s| > 0 && s[0] == '+' then s[1..] else s
  }

  /**
   * The registration phone rule: an optional '+', then 2 to 15 digits of which the first
   * is not '0' (ITU-T E.164 numbers have at most 15 digits).
   */
  predicate IsPhone(s: string)
  {
    var d := PhoneDigits(s);
    && 2 <= |d| <= 15
    && d[0] != '0'
    && forall k | 0 <= k < |d| :: IsDigit(d[k])
  }

  /** `s` matches the phone pattern with `\+?` taking its first `sign` characters. */
  ghost predicate PhoneSplit(s: string, sign: int)
  {
    && (sign == 0 || (sign == 1 && |s| > 0 && s[0] == '+'))
    && sign + 2 <= |s| <= sign + 15
    && '1' <= s[sign] <= '9'
    && forall k | sign < k < |s| :: IsDigit(s[k])
  }

  /** `s` matches the phone pattern, with or without the leading '+'. */
  ghost predicate MatchesPhonePattern(s: string)
  {
    PhoneSplit(s, 0) || PhoneSplit(s, 1)
  }

  /** The hand-written phone rule accepts exactly the strings the regular expression accepts. */
  lemma PhoneRuleIsPattern(s: string)
    ensures IsPhone(s) <==> MatchesPhonePattern(s)
  {
    var d := PhoneDigits(s);
    var sign := if |s| > 0 && s[0] == '+' then 1 else 0;
    assert d == s[sign..];
    assert !PhoneSplit(s, 1 - sign);
    if IsPhone(s) {
      forall k | sign < k < |s| ensures IsDigit(s[k]) {
        assert s[k] == d[k - sign];
      }
      assert IsDigit(d[0]) && s[sign] == d[0];
      assert PhoneSplit(s, sign);
    }
    if PhoneSplit(s, sign) {
      forall k | 0 <= k < |d| ensures IsDigit(d[k]) {
        assert d[k] == s[k + sign];
      }
    }
  }
}
