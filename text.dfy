/** String operations of the JavaScript runtime that the core relies on:
    the whitespace class shared by `\s`, `String.prototype.trim` and
    `parseInt`, line terminators (which `.` in a regular expression does not
    match), lower-casing, substring search and `Array.prototype.join`. */
module Text {

  /** WhiteSpace or LineTerminator in the ECMAScript grammar. */
  predicate IsJsWhitespace(c: char)
  {
    c == '\t' || c == '\n' || c == '\U{000B}' || c == '\U{000C}' || c == '\r' || c == ' '
    || c == '\U{00A0}' || c == '\U{1680}' || ('\U{2000}' <= c <= '\U{200A}')
    || c == '\U{2028}' || c == '\U{2029}' || c == '\U{202F}' || c == '\U{205F}'
    || c == '\U{3000}' || c == '\U{FEFF}'
  }

  predicate IsLineTerminator(c: char)
  {
    c == '\n' || c == '\r' || c == '\U{2028}' || c == '\U{2029}'
  }

  predicate AllWhitespace(s: string)
  {
    forall i :: 0 <= i < |s| ==> IsJsWhitespace(s[i])
  }

  predicate NoLineTerminator(s: string)
  {
    forall i :: 0 <= i < |s| ==> !IsLineTerminator(s[i])
  }

  /** Lower-casing of the ASCII letters. */
  function LowerChar(c: char): (r: char)
    ensures 'A' <= c <= 'Z' ==> r as int == c as int + 32
    ensures !('A' <= c <= 'Z') ==> r == c
    ensures !('A' <= r <= 'Z')
  {
    if 'A' <= c <= 'Z' then (c as int + 32) as char else c
  }

  function ToLower(s: string): (r: string)
    ensures |r| == |s|
    ensures forall i :: 0 <= i < |s| ==> r[i] == LowerChar(s[i])
  {
    seq(|s|, i requires 0 <= i < |s| => LowerChar(s[i]))
  }

  /** Two strings that differ at most in the case of their letters. */
  predicate SameIgnoringCase(a: string, b: string)
  {
    ToLower(a) == ToLower(b)
  }

  lemma ToLowerIdempotent(s: string)
    ensures ToLower(ToLower(s)) == ToLower(s)
  {
  }

  /** `s.startsWith(p)` */
  predicate IsPrefix(p: string, s: string)
  {
    |p| <= |s| && s[..|p|] == p
  }

  /** `sub` occurs in `s` starting at index `i`. */
  predicate OccursAt(s: string, sub: string, i: int)
  {
    0 <= i && i + |sub| <= |s| && s[i..i + |sub|] == sub
  }

  /** When `sub` does not start `s`, it occurs in `s` iff it occurs in the
      rest of `s`. */
  lemma OccursInTail(s: string, sub: string)
    requires s != [] && !IsPrefix(sub, s)
    ensures (exists i :: OccursAt(s, sub, i)) <==> (exists i :: OccursAt(s[1..], sub, i))
  {
    forall i | OccursAt(s[1..], sub, i)
      ensures OccursAt(s, sub, i + 1)
    {
      assert s[i + 1..i + 1 + |sub|] == s[1..][i..i + |sub|];
    }
    forall i | OccursAt(s, sub, i)
      ensures OccursAt(s[1..], sub, i - 1)
    {
      assert s[..|sub|] == s[0..|sub|];
      assert i >= 1;
      assert s[1..][i - 1..i - 1 + |sub|] == s[i..i + |sub|];
    }
  }

  /** Where `sub` is at least as long as `s`, it can only occur as a prefix. */
  lemma OnlyPrefixFits(s: string, sub: string)
    requires |s| <= |sub|
    ensures forall i :: OccursAt(s, sub, i) ==> IsPrefix(sub, s)
  {
    forall i | OccursAt(s, sub, i)
      ensures IsPrefix(sub, s)
    {
      assert i == 0;
      assert s[..|sub|] == s[0..|sub|];
    }
  }

  /** `s.includes(sub)`, searched from the left. */
  function Contains(s: string, sub: string): (r: bool)
    ensures r <==> exists i :: OccursAt(s, sub, i)
    decreases |s|
  {
    if IsPrefix(sub, s) then
      assert OccursAt(s, sub, 0);
      true
    else if |s| <= |sub| then
      OnlyPrefixFits(s, sub);
      false
    else
      OccursInTail(s, sub);
      Contains(s[1..], sub)
  }

  /** Number of whitespace characters at the start of `s`. */
  function LeadingWhitespace(s: string): (k: nat)
    ensures k <= |s| && AllWhitespace(s[..k])
    ensures k == |s| || !IsJsWhitespace(s[k])
    decreases |s|
  {
    if |s| > 0 && IsJsWhitespace(s[0]) then
      var k := LeadingWhitespace(s[1..]);
      assert s[..k + 1] == [s[0]] + s[1..][..k];
      k + 1
    else 0
  }

  /** Index where the whitespace at the end of `s` begins. */
  function TrailingStart(s: string): (k: nat)
    ensures k <= |s| && AllWhitespace(s[k..])
    ensures k == 0 || !IsJsWhitespace(s[k - 1])
    decreases |s|
  {
    if |s| > 0 && IsJsWhitespace(s[|s| - 1]) then
      var k := TrailingStart(s[..|s| - 1]);
      assert s[k..] == s[..|s| - 1][k..] + [s[|s| - 1]];
      k
    else |s|
  }

  /** `s.trim()`: drops leading and trailing whitespace and keeps the rest,
      inner whitespace included. */
  function Trim(s: string): (r: string)
    ensures var i := LeadingWhitespace(s);
            var j := i + TrailingStart(s[i..]);
            i <= j <= |s| && r == s[i..j]
            && AllWhitespace(s[..i]) && AllWhitespace(s[j..])
    ensures r == [] || (!IsJsWhitespace(r[0]) && !IsJsWhitespace(r[|r| - 1]))
  {
    var t := s[LeadingWhitespace(s)..];
    var r := t[..TrailingStart(t)];
    assert r == [] || r[0] == t[0];
    r
  }

  /** Trimming leaves a string that neither starts nor ends with whitespace
      as it is. */
  lemma TrimUntrimmed(s: string)
    requires s == [] || (!IsJsWhitespace(s[0]) && !IsJsWhitespace(s[|s| - 1]))
    ensures Trim(s) == s
  {
    assert LeadingWhitespace(s) == 0;
    assert TrailingStart(s) == |s|;
  }

  /** Trimming a string made only of whitespace gives the empty string. */
  lemma TrimAllWhitespace(s: string)
    requires AllWhitespace(s)
    ensures Trim(s) == []
  {
  }

  /** Whitespace in front of `s` only lengthens its leading run. */
  lemma {:induction false} LeadingWhitespaceSkip(ws: string, s: string)
    requires AllWhitespace(ws)
    ensures LeadingWhitespace(ws + s) == |ws| + LeadingWhitespace(s)
    decreases |ws|
  {
    if ws == [] {
      assert ws + s == s;
    } else {
      assert (ws + s)[0] == ws[0];
      assert (ws + s)[1..] == ws[1..] + s;
      assert forall i :: 0 <= i < |ws[1..]| ==> ws[1..][i] == ws[i + 1];
      LeadingWhitespaceSkip(ws[1..], s);
    }
  }

  /** Whitespace after text that does not end in whitespace is exactly the
      trailing run. */
  lemma {:induction false} TrailingOfPadded(s: string, ws: string)
    requires s != [] && !IsJsWhitespace(s[|s| - 1]) && AllWhitespace(ws)
    ensures TrailingStart(s + ws) == |s|
    decreases |ws|
  {
    if ws == [] {
      assert s + ws == s;
    } else {
      var t := s + ws;
      assert t[|t| - 1] == ws[|ws| - 1];
      assert t[..|t| - 1] == s + ws[..|ws| - 1];
      assert forall i :: 0 <= i < |ws[..|ws| - 1]| ==> ws[..|ws| - 1][i] == ws[i];
      TrailingOfPadded(s, ws[..|ws| - 1]);
    }
  }

  /** Trimming does not depend on whitespace in front of the text. */
  lemma TrimSkipsLeadingWhitespace(ws: string, s: string)
    requires AllWhitespace(ws)
    ensures Trim(ws + s) == Trim(s)
  {
    LeadingWhitespaceSkip(ws, s);
    assert (ws + s)[|ws| + LeadingWhitespace(s)..] == s[LeadingWhitespace(s)..];
  }

  /** `items.join(sep)` */
  function Join(items: seq<string>, sep: string): (r: string)
    ensures items == [] ==> r == []
    ensures |items| == 1 ==> r == items[0]
    ensures |items| >= 2 ==> r == Join(items[..|items| - 1], sep) + sep + items[|items| - 1]
  {
    if items == [] then []
    else if |items| == 1 then items[0]
    else Join(items[..|items| - 1], sep) + sep + items[|items| - 1]
  }

  predicate IsDigit(c: char)
  {
    '0' <= c <= '9'
  }

  function DigitValue(c: char): (d: nat)
    requires IsDigit(c)
    ensures d < 10
  {
    c as int - '0' as int
  }

  function DigitChar(d: nat): (c: char)
    requires d < 10
    ensures IsDigit(c) && DigitValue(c) == d
  {
    ('0' as int + d) as char
  }

  /** Value of a string of decimal digits, most significant first. */
  function DecimalValue(ds: string): nat
    requires forall i :: 0 <= i < |ds| ==> IsDigit(ds[i])
  {
    if ds == [] then 0 else 10 * DecimalValue(ds[..|ds| - 1]) + DigitValue(ds[|ds| - 1])
  }

  /** `String(n)` for a non-negative integer. */
  function NatToString(n: nat): (s: string)
    ensures |s| >= 1
    ensures forall i :: 0 <= i < |s| ==> IsDigit(s[i])
  {
    if n < 10 then [DigitChar(n)] else NatToString(n / 10) + [DigitChar(n % 10)]
  }

  lemma {:induction false} DecimalValueOfNatToString(n: nat)
    ensures DecimalValue(NatToString(n)) == n
  {
    if n >= 10 {
      var s := NatToString(n);
      assert s[..|s| - 1] == NatToString(n / 10);
      DecimalValueOfNatToString(n / 10);
    }
  }
}
