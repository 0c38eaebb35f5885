/** String operations the application borrows from PHP and JavaScript: substring search
    (`str_contains`, `String.prototype.includes`), `trim`, the last piece of a `split`,
    the first piece of a `split`, and decimal rendering of a number. */
module Text {

  /** `t` occurs in `s` starting at index `i`. */
  ghost predicate OccursAt(s: string, t: string, i: int) {
    0 <= i && i + |t| <= |s| && s[i..i + |t|] == t
  }

  /** Substring search: does `t` occur anywhere in `s`? */
  function Contains(s: string, t: string): bool
    decreases |s|
  {
    if |t| > |s| then false
    else if s[..|t|] == t then true
    else Contains(s[1..], t)
  }

  lemma OccursAtShift(s: string, t: string, i: int)
    requires |s| > 0 && 0 <= i
    ensures OccursAt(s[1..], t, i) <==> OccursAt(s, t, i + 1)
  {
    if 0 <= i && i + |t| <= |s| - 1 {
      assert s[1..][i..i + |t|] == s[i + 1..i + 1 + |t|];
    }
  }

  /** The search agrees with its declarative meaning: some position holds `t`. */
  lemma {:induction false} ContainsIffOccurs(s: string, t: string)
    ensures Contains(s, t) <==> exists i :: OccursAt(s, t, i)
    decreases |s|
  {
    if |t| > |s| {
      assert forall i :: !OccursAt(s, t, i);
    } else if s[..|t|] == t {
      assert OccursAt(s, t, 0);
    } else {
      ContainsIffOccurs(s[1..], t);
      assert !OccursAt(s, t, 0);
      if Contains(s, t) {
        var i :| OccursAt(s[1..], t, i);
        OccursAtShift(s, t, i);
      } else {
        forall i | OccursAt(s, t, i)
          ensures false
        {
          OccursAtShift(s, t, i - 1);
        }
      }
    }
  }

  /** The characters ECMAScript's `trim` removes: the WhiteSpace and LineTerminator code points. */
  predicate IsJsWhitespace(c: char) {
    || c == '\t' || c == '\n' || c == '\U{000B}' || c == '\U{000C}' || c == '\r' || c == ' '
    || c == '\U{00A0}' || c == '\U{1680}' || ('\U{2000}' <= c <= '\U{200A}')
    || c == '\U{2028}' || c == '\U{2029}' || c == '\U{202F}' || c == '\U{205F}'
    || c == '\U{3000}' || c == '\U{FEFF}'
  }

  ghost predicate AllWhitespace(s: string) {
    forall i :: 0 <= i < |s| ==> IsJsWhitespace(s[i])
  }

  /** Drops leading whitespace: the result is the suffix of `s` that starts at its first
      non-whitespace character. */
  function TrimStart(s: string): (r: string)
    ensures |r| <= |s| && r == s[|s| - |r|..]
    ensures AllWhitespace(s[..|s| - |r|])
    ensures r == [] || !IsJsWhitespace(r[0])
  {
    if |s| > 0 && IsJsWhitespace(s[0]) then
      var t := s[1..];
      var r := TrimStart(t);
      assert s[|s| - |r|..] == t[|t| - |r|..];
      assert s[..|s| - |r|] == [s[0]] + t[..|t| - |r|];
      r
    else s
  }

  /** Drops trailing whitespace: the result is the prefix of `s` that ends at its last
      non-whitespace character. */
  function TrimEnd(s: string): (r: string)
    ensures |r| <= |s| && r == s[..|r|]
    ensures AllWhitespace(s[|r|..])
    ensures r == [] || !IsJsWhitespace(r[|r| - 1])
  {
    if |s| > 0 && IsJsWhitespace(s[|s| - 1]) then
      var r := TrimEnd(s[..|s| - 1]);
      assert s[|r|..] == s[..|s| - 1][|r|..] + [s[|s| - 1]];
      r
    else s
  }

  /** `String.prototype.trim`. */
  function Trim(s: string): string {
    TrimEnd(TrimStart(s))
  }

  /** `!s.trim()` holds exactly when every character of `s` is whitespace. */
  lemma TrimEmptyIffBlank(s: string)
    ensures Trim(s) == [] <==> AllWhitespace(s)
  {
    var u := TrimStart(s);
    if Trim(s) == [] {
      assert AllWhitespace(u[0..]);
      assert s == s[..|s| - |u|] + u;
    }
  }

  /** The last piece of `s.split(c)`: the text after the last `c`, or all of `s` when
      it holds no `c`. */
  function AfterLast(s: string, c: char): (r: string)
    ensures c !in r
    ensures |r| <= |s| && r == s[|s| - |r|..]
    ensures |r| < |s| ==> s[|s| - |r| - 1] == c
  {
    if |s| == 0 then []
    else if s[|s| - 1] == c then []
    else AfterLast(s[..|s| - 1], c) + [s[|s| - 1]]
  }

  /** The first piece of `s.split(c)`: the text before the first `c`, or all of `s` when
      it holds no `c`. */
  function BeforeFirst(s: string, c: char): (r: string)
    ensures c !in r
    ensures |r| <= |s| && r == s[..|r|]
    ensures |r| < |s| ==> s[|r|] == c
  {
    if |s| == 0 then []
    else if s[0] == c then []
    else [s[0]] + BeforeFirst(s[1..], c)
  }

  /** Splitting off the last piece inverts joining with a separator the piece does not hold. */
  lemma {:induction false} AfterLastOfJoin(front: string, c: char, back: string)
    requires c !in back
    ensures AfterLast(front + [c] + back, c) == back
    decreases |back|
  {
    var s := front + [c] + back;
    if back != [] {
      var init := back[..|back| - 1];
      assert s[..|s| - 1] == front + [c] + init;
      assert s[|s| - 1] == back[|back| - 1];
      AfterLastOfJoin(front, c, init);
      assert back == init + [back[|back| - 1]];
    }
  }

  /** Taking the first piece inverts joining with a separator the piece does not hold. */
  lemma {:induction false} BeforeFirstOfJoin(front: string, c: char, back: string)
    requires c !in front
    ensures BeforeFirst(front + [c] + back, c) == front
    decreases |front|
  {
    var s := front + [c] + back;
    if front != [] {
      assert s[1..] == front[1..] + [c] + back;
      assert s[0] == front[0];
      BeforeFirstOfJoin(front[1..], c, back);
      assert front == [front[0]] + front[1..];
    }
  }

  predicate IsDigit(c: char) {
    '0' <= c <= '9'
  }

  /** Decimal text of a natural number, as string interpolation renders it. */
  function NatToString(n: nat): (r: string)
    ensures |r| > 0
    ensures forall i :: 0 <= i < |r| ==> IsDigit(r[i])
    ensures r[0] == '0' ==> n == 0
  {
    if n < 10 then [DigitChar(n)] else NatToString(n / 10) + [DigitChar(n % 10)]
  }

  function DigitChar(d: nat): (c: char)
    requires d < 10
    ensures IsDigit(c)
    ensures c == '0' <==> d == 0
  {
    ['0', '1', '2', '3', '4', '5', '6', '7', '8', '9'][d]
  }

  /** The number a string of decimal digits denotes. */
  function DigitsValue(s: string): nat
    requires forall i :: 0 <= i < |s| ==> IsDigit(s[i])
  {
    if |s| == 0 then 0
    else
      assert IsDigit(s[|s| - 1]);
      10 * DigitsValue(s[..|s| - 1]) + (s[|s| - 1] as int - '0' as int)
  }

  lemma DigitCharValue(d: nat)
    requires d < 10
    ensures DigitChar(d) as int - '0' as int == d
  {
  }

  /** Reading the rendered digits back gives the number: the text is faithful. */
  lemma {:induction false} NatToStringRoundTrip(n: nat)
    ensures DigitsValue(NatToString(n)) == n
  {
    var s := NatToString(n);
    if n < 10 {
      DigitCharValue(n);
      assert s[..|s| - 1] == [];
    } else {
      NatToStringRoundTrip(n / 10);
      DigitCharValue(n % 10);
      assert s[..|s| - 1] == NatToString(n / 10);
    }
  }
}
