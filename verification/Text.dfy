/** Strings as the proxy sees them: substring search, hexadecimal numbers, and the
    removal of quotation marks. Text is ASCII. */
module Text {
  import opened Wrappers

  const U64_LIMIT: nat := 0x1_0000_0000_0000_0000

  predicate OccursAt(s: string, t: string, i: int) {
    0 <= i && i + |t| <= |s| && s[i..i + |t|] == t
  }

  /** `memmem::find(s, t).is_some()` */
  predicate Contains(s: string, t: string) {
    exists i :: 0 <= i <= |s| && OccursAt(s, t, i)
  }

  predicate IsNameChar(c: char) {
    'a' <= c <= 'z' || 'A' <= c <= 'Z' || c == '_'
  }

  /** A nonempty run of letters and underscores, as every block tag and method name is. */
  predicate IsName(t: string) {
    t != "" && forall i :: 0 <= i < |t| ==> IsNameChar(t[i])
  }

  lemma ContainsInContext(pre: string, s: string, post: string, t: string)
    requires Contains(s, t)
    ensures Contains(pre + s + post, t)
  {
    var i :| 0 <= i <= |s| && OccursAt(s, t, i);
    var whole := pre + s + post;
    assert whole[|pre| + i..|pre| + i + |t|] == s[i..i + |t|];
    assert OccursAt(whole, t, |pre| + i);
  }

  lemma ContainsTransitive(s: string, t: string, u: string)
    requires Contains(s, t) && Contains(t, u)
    ensures Contains(s, u)
  {
    var i :| 0 <= i <= |s| && OccursAt(s, t, i);
    ContainsInContext(s[..i], t, s[i + |t|..], u);
    assert s[..i] + t + s[i + |t|..] == s;
  }

  lemma OccurrenceIsInside(s: string, t: string, i: int)
    requires t != "" && OccursAt(s, t, i)
    ensures forall p :: i <= p < i + |t| ==> s[p] in t
    ensures s[i] in t
  {
    assert s[i..i + |t|][0] == s[i];
    forall p | i <= p < i + |t|
      ensures s[p] in t
    {
      assert s[p] == s[i..i + |t|][p - i] == t[p - i];
    }
  }

  lemma CharsOfContained(s: string, t: string)
    requires Contains(s, t)
    ensures forall k :: 0 <= k < |t| ==> t[k] in s
  {
    var i :| 0 <= i <= |s| && OccursAt(s, t, i);
    forall k | 0 <= k < |t|
      ensures t[k] in s
    {
      assert s[i + k] == s[i..i + |t|][k];
    }
  }

  lemma LongerMisses(s: string, t: string)
    requires |s| < |t|
    ensures !Contains(s, t)
  {
  }

  lemma LacksChar(s: string, t: string, k: nat)
    requires k < |t| && t[k] !in s
    ensures !Contains(s, t)
  {
    if Contains(s, t) {
      CharsOfContained(s, t);
      assert false;
    }
  }

  /** A text never straddles a character it does not contain. */
  lemma MissesSeparator(a: string, c: char, b: string, t: string)
    requires t != "" && c !in t
    ensures Contains(a + [c] + b, t) <==> Contains(a, t) || Contains(b, t)
  {
    var whole := a + [c] + b;
    if Contains(whole, t) {
      var i :| 0 <= i <= |whole| && OccursAt(whole, t, i);
      OccurrenceIsInside(whole, t, i);
      assert whole[|a|] == c;
      if i + |t| <= |a| {
        assert a[i..i + |t|] == whole[i..i + |t|];
        assert OccursAt(a, t, i);
      } else {
        var j := i - |a| - 1;
        assert b[j..j + |t|] == whole[i..i + |t|];
        assert OccursAt(b, t, j);
      }
    }
    if Contains(a, t) {
      ContainsInContext("", a, [c] + b, t);
      assert "" + a + ([c] + b) == whole;
    }
    if Contains(b, t) {
      ContainsInContext(a + [c], b, "", t);
      assert a + [c] + b + "" == whole;
    }
  }

  // ---------------------------------------------------------------------------
  // Quotation marks

  /** `s.replace('\"', "")` */
  function RemoveQuotes(s: string): string {
    if s == "" then "" else if s[0] == '\"' then RemoveQuotes(s[1..]) else [s[0]] + RemoveQuotes(s[1..])
  }

  lemma UnquotingStep(s: string)
    ensures RemoveQuotes("") == ""
    ensures s != "" ==> RemoveQuotes(s) == (if s[0] == '\"' then "" else [s[0]]) + RemoveQuotes(s[1..])
  {
  }

  lemma {:induction false} UnquotingSplits(a: string, b: string)
    ensures RemoveQuotes(a + b) == RemoveQuotes(a) + RemoveQuotes(b)
  {
    hide RemoveQuotes;
    UnquotingStep(a);
    if a == "" {
      assert a + b == b;
    } else {
      UnquotingStep(a + b);
      UnquotingSplits(a[1..], b);
      assert (a + b)[1..] == a[1..] + b;
    }
  }

  /** Exactly the quotation marks go, wherever they are, and everything else stays in its order. */
  lemma UnquotingIsExact(a: string, c: char, b: string)
    ensures RemoveQuotes(a + [c] + b)
         == RemoveQuotes(a) + (if c == '\"' then "" else [c]) + RemoveQuotes(b)
    ensures RemoveQuotes("") == ""
  {
    UnquotingSplits(a + [c], b);
    UnquotingSplits(a, [c]);
    assert [c][1..] == "";
  }

  predicate IsJoint(c: char) {
    c in {'[', ']', '{', '}', ',', ':', '\\'}
  }

  /** Every quotation mark has structure, or the end of the text, on one of its sides. */
  predicate QuoteSafe(s: string) {
    forall i :: 0 <= i < |s| && s[i] == '\"' ==>
      i == 0 || i == |s| - 1 || IsJoint(s[i - 1]) || IsJoint(s[i + 1])
  }

  lemma QuoteSafeJoin(a: string, c: char, b: string)
    requires QuoteSafe(a) && QuoteSafe(b) && IsJoint(c)
    ensures QuoteSafe(a + [c] + b)
  {
    var s := a + [c] + b;
    forall i | 0 <= i < |s| && s[i] == '\"'
      ensures i == 0 || i == |s| - 1 || IsJoint(s[i - 1]) || IsJoint(s[i + 1])
    {
      if i < |a| {
        assert a[i] == '\"';
        assert i + 1 < |a| ==> s[i + 1] == a[i + 1];
        assert i > 0 ==> s[i - 1] == a[i - 1];
      } else {
        var j := i - |a| - 1;
        assert b[j] == '\"';
        assert j + 1 < |b| ==> s[i + 1] == b[j + 1];
        assert j > 0 ==> s[i - 1] == b[j - 1];
      }
    }
  }

  lemma QuoteSafeTail(s: string)
    requires s != "" && QuoteSafe(s)
    ensures QuoteSafe(s[1..])
  {
    forall i | 0 <= i < |s[1..]| && s[1..][i] == '\"'
      ensures i == 0 || i == |s[1..]| - 1 || IsJoint(s[1..][i - 1]) || IsJoint(s[1..][i + 1])
    {
      assert s[i + 1] == '\"';
    }
  }

  /** Behind a character that is neither structure nor a quotation mark, a quotation mark is
      followed by structure or by nothing. */
  lemma QuoteBehindPlain(s: string)
    requires s != "" && QuoteSafe(s) && !IsJoint(s[0])
    ensures |s| > 1 && s[1] == '\"' ==> RemoveQuotes(s[1..]) == "" || IsJoint(RemoveQuotes(s[1..])[0])
  {
    if |s| > 2 && s[1] == '\"' {
      assert s[1..][1..] == s[2..];
    }
  }

  lemma {:induction false} WordStartsUnquoted(s: string, t: string)
    requires s != "" && s[0] != '\"' && QuoteSafe(s)
    requires IsName(t) && t <= RemoveQuotes(s)
    ensures t <= s
  {
    assert t[0] == s[0];
    if |t| > 1 {
      var rest := t[1..];
      assert rest <= RemoveQuotes(s[1..]);
      QuoteBehindPlain(s);
      assert IsName(rest) by {
        assert forall i :: 0 <= i < |rest| ==> rest[i] == t[i + 1];
      }
      assert rest[0] == RemoveQuotes(s[1..])[0];
      QuoteSafeTail(s);
      WordStartsUnquoted(s[1..], rest);
      assert s == [s[0]] + s[1..];
    }
  }

  /** Removing quotation marks from serialized JSON never creates a word. */
  lemma {:induction false} UnquotingAddsNoWord(s: string, t: string)
    requires QuoteSafe(s) && IsName(t) && Contains(RemoveQuotes(s), t)
    ensures Contains(s, t)
  {
    var u := RemoveQuotes(s);
    var i :| 0 <= i <= |u| && OccursAt(u, t, i);
    assert s != "";
    if s[0] != '\"' && i == 0 {
      WordStartsUnquoted(s, t);
      assert OccursAt(s, t, 0);
    } else {
      var j := if s[0] == '\"' then i else i - 1;
      assert RemoveQuotes(s[1..])[j..j + |t|] == u[i..i + |t|];
      assert OccursAt(RemoveQuotes(s[1..]), t, j);
      QuoteSafeTail(s);
      UnquotingAddsNoWord(s[1..], t);
      ContainsInContext([s[0]], s[1..], "", t);
      assert [s[0]] + s[1..] + "" == s;
    }
  }

  // ---------------------------------------------------------------------------
  // Hexadecimal numbers

  const HEX_DIGITS: string := "0123456789abcdef"

  function DigitValue(c: char): (d: Option<nat>)
    ensures d.Some? ==> d.value < 16
  {
    if '0' <= c <= '9' then Some(c as nat - '0' as nat)
    else if 'a' <= c <= 'f' then Some(c as nat - 'a' as nat + 10)
    else if 'A' <= c <= 'F' then Some(c as nat - 'A' as nat + 10)
    else None
  }

  /** The value of a run of hexadecimal digits, of any size. */
  function DigitsValue(s: string): Option<nat> {
    if s == "" then Some(0)
    else
      match (DigitsValue(s[..|s| - 1]), DigitValue(s[|s| - 1]))
      case (Some(high), Some(low)) => Some(16 * high + low)
      case _ => None
  }

  /** `u64::from_str_radix(s, 16).ok()`: a leading plus sign is accepted, overflow is not. */
  function FromStrRadix16(s: string): Option<nat> {
    var digits := if |s| > 1 && s[0] == '+' then s[1..] else s;
    if digits == "" then None
    else
      match DigitsValue(digits)
      case Some(n) => if n < U64_LIMIT then Some(n) else None
      case None => None
  }

  /** `format!("{:x}", n)` */
  function LowerHex(n: nat): string {
    if n < 16 then [HEX_DIGITS[n]] else LowerHex(n / 16) + [HEX_DIGITS[n % 16]]
  }

  predicate IsQuantityChar(c: char) {
    '0' <= c <= '9' || 'a' <= c <= 'f' || c == 'x'
  }

  lemma {:induction false} LowerHexShape(n: nat)
    ensures LowerHex(n) != "" && LowerHex(n)[0] != '+'
    ensures forall i :: 0 <= i < |LowerHex(n)| ==> IsQuantityChar(LowerHex(n)[i])
  {
    if n >= 16 {
      LowerHexShape(n / 16);
    }
  }

  lemma AppendDigit(s: string, high: nat, low: nat)
    requires DigitsValue(s) == Some(high) && low < 16
    ensures DigitsValue(s + [HEX_DIGITS[low]]) == Some(16 * high + low)
  {
    var longer := s + [HEX_DIGITS[low]];
    assert longer[..|longer| - 1] == s;
    assert DigitValue(HEX_DIGITS[low]) == Some(low);
  }

  lemma {:induction false} LowerHexValue(n: nat)
    ensures DigitsValue(LowerHex(n)) == Some(n)
  {
    if n < 16 {
      AppendDigit("", 0, n);
      assert "" + [HEX_DIGITS[n]] == LowerHex(n);
    } else {
      LowerHexValue(n / 16);
      AppendDigit(LowerHex(n / 16), n / 16, n % 16);
    }
  }

  /** Printing a u64 in hexadecimal and parsing it back gives it unchanged. */
  lemma HexRoundTrip(n: nat)
    requires n < U64_LIMIT
    ensures FromStrRadix16(LowerHex(n)) == Some(n)
  {
    LowerHexShape(n);
    LowerHexValue(n);
  }

  /** No digit of a printed number is an upper case letter, and the first is zero only for zero. */
  lemma {:induction false} LowerHexIsShortest(n: nat)
    ensures forall i :: 0 <= i < |LowerHex(n)| ==> LowerHex(n)[i] in "0123456789abcdef"
    ensures LowerHex(n) != "" && (LowerHex(n)[0] == '0' <==> n == 0)
  {
    if n >= 16 {
      LowerHexIsShortest(n / 16);
    }
  }

  /** `s` is `t` with some of its letters in upper case. */
  ghost predicate SameButCase(s: string, t: string) {
    && |s| == |t|
    && forall i :: 0 <= i < |s| ==> s[i] == t[i] || ('a' <= t[i] <= 'f' && s[i] as nat + 32 == t[i] as nat)
  }

  lemma {:induction false} CaseNeverMatters(s: string, t: string)
    requires SameButCase(s, t)
    ensures DigitsValue(s) == DigitsValue(t)
  {
    if s != "" {
      CaseNeverMatters(s[..|s| - 1], t[..|t| - 1]);
    }
  }

  lemma {:induction false} LeadingZeros(zeros: nat, s: string)
    ensures DigitsValue(seq(zeros, _ => '0') + s) == DigitsValue(s)
  {
    var whole := seq(zeros, _ => '0') + s;
    if s != "" {
      LeadingZeros(zeros, s[..|s| - 1]);
      assert whole[..|whole| - 1] == seq(zeros, _ => '0') + s[..|s| - 1];
    } else if zeros > 0 {
      LeadingZeros(zeros - 1, "");
      assert whole[..|whole| - 1] == seq(zeros - 1, _ => '0') + "";
    }
  }

  lemma {:induction false} NoDigitNoValue(s: string, i: nat)
    requires i < |s| && s[i] !in "0123456789abcdefABCDEF"
    ensures DigitsValue(s) == None
  {
    if i < |s| - 1 {
      NoDigitNoValue(s[..|s| - 1], i);
    } else {
      OtherCharsAreNoDigits(s[i]);
    }
  }

  lemma OtherCharsAreNoDigits(c: char)
    requires c !in "0123456789abcdefABCDEF"
    ensures DigitValue(c) == None
  {
  }

  /** Which texts are read: the digits of a number in any case, behind any zeros and perhaps a plus
      sign, give the number if it is a `u64` and nothing if it is larger; a text with any other
      character behind the sign gives nothing. */
  lemma RadixIsExact(n: nat, zeros: nat, digits: string, other: string, i: nat)
    requires SameButCase(digits, LowerHex(n))
    requires 0 < i < |other| && other[i] !in "0123456789abcdefABCDEF"
    ensures var text, r := seq(zeros, _ => '0') + digits, if n < U64_LIMIT then Some(n) else None;
            FromStrRadix16(text) == r && FromStrRadix16("+" + text) == r
    ensures FromStrRadix16(other) == None && FromStrRadix16("") == None && FromStrRadix16("+") == None
  {
    var text := seq(zeros, _ => '0') + digits;
    LowerHexIsShortest(n);
    LowerHexValue(n);
    CaseNeverMatters(digits, LowerHex(n));
    LeadingZeros(zeros, digits);
    FirstIsNoSign(zeros, digits, n);
    assert ("+" + text)[1..] == text;
    if other[0] == '+' {
      NoDigitNoValue(other[1..], i - 1);
    } else {
      NoDigitNoValue(other, i);
    }
    PlusIsNoDigit();
  }

  lemma FirstIsNoSign(zeros: nat, digits: string, n: nat)
    requires SameButCase(digits, LowerHex(n))
    ensures seq(zeros, _ => '0') + digits != "" && (seq(zeros, _ => '0') + digits)[0] != '+'
  {
    LowerHexShape(n);
  }

  lemma PlusIsNoDigit()
    ensures DigitsValue("+") == None
  {
    assert "+"[..0] == "";
  }

  // ---------------------------------------------------------------------------
  // Decimal numbers

  function Decimal(n: nat): string {
    if n < 10 then [HEX_DIGITS[n]] else Decimal(n / 10) + [HEX_DIGITS[n % 10]]
  }

  lemma {:induction false} DecimalShape(n: nat)
    ensures forall i :: 0 <= i < |Decimal(n)| ==> '0' <= Decimal(n)[i] <= '9'
  {
    if n >= 10 {
      DecimalShape(n / 10);
    }
  }

  lemma DecimalHoldsNoName(n: nat, t: string)
    requires IsName(t)
    ensures !Contains(Decimal(n), t)
  {
    DecimalShape(n);
    assert IsNameChar(t[0]);
    if Contains(Decimal(n), t) {
      CharsOfContained(Decimal(n), t);
      assert false;
    }
  }

  lemma DigitsDiffer(a: nat, b: nat)
    requires a < 16 && b < 16 && HEX_DIGITS[a] == HEX_DIGITS[b]
    ensures a == b
  {
    assert DigitValue(HEX_DIGITS[a]) == Some(a) && DigitValue(HEX_DIGITS[b]) == Some(b);
  }

  lemma {:induction false} DecimalsDiffer(a: nat, b: nat)
    requires Decimal(a) == Decimal(b)
    ensures a == b
  {
    var s, t := Decimal(a), Decimal(b);
    DecimalNonempty(a / 10);
    DecimalNonempty(b / 10);
    assert s[|s| - 1] == HEX_DIGITS[a % 10] && t[|t| - 1] == HEX_DIGITS[b % 10];
    DigitsDiffer(a % 10, b % 10);
    if a >= 10 && b >= 10 {
      assert s[..|s| - 1] == Decimal(a / 10) && t[..|t| - 1] == Decimal(b / 10);
      DecimalsDiffer(a / 10, b / 10);
    }
  }

  lemma DecimalNonempty(n: nat)
    ensures Decimal(n) != ""
  {
  }
}
