/**
 * Character and string helpers with the meaning Python gives them:
 * `str.strip()`, `str.lower()`, `str.upper()`, `sub in s`, decimal digits
 * and `str(int)`.
 */
module Text {

  datatype Option<+T> = None | Some(value: T)

  /** Python's `str.isspace()` (and the `\s` class of `re` on str patterns). */
  predicate IsSpace(ch: char)
  {
    || ch == ' ' || ch == '\t' || ch == '\n' || ch == '\r'
    || ch == '\U{0B}' || ch == '\U{0C}'
    || ('\U{1C}' <= ch <= '\U{1F}')
    || ch == '\U{85}' || ch == '\U{A0}' || ch == '\U{1680}'
    || ('\U{2000}' <= ch <= '\U{200A}')
    || ch == '\U{2028}' || ch == '\U{2029}' || ch == '\U{202F}'
    || ch == '\U{205F}' || ch == '\U{3000}'
  }

  function TrimStart(s: string): (r: string)
    ensures |r| <= |s| && r == s[|s| - |r|..]
    ensures r != [] ==> !IsSpace(r[0])
  {
    if s != [] && IsSpace(s[0]) then TrimStart(s[1..]) else s
  }

  function TrimEnd(s: string): (r: string)
    ensures |r| <= |s| && r == s[..|r|]
    ensures r != [] ==> !IsSpace(r[|r| - 1])
  {
    if s != [] && IsSpace(s[|s| - 1]) then TrimEnd(s[..|s| - 1]) else s
  }

  /** `s.strip()` */
  function Strip(s: string): string
  {
    TrimEnd(TrimStart(s))
  }

  /** A string that neither starts nor ends with whitespace is its own `strip()`. */
  lemma StripUnchanged(s: string)
    requires s != [] ==> !IsSpace(s[0]) && !IsSpace(s[|s| - 1])
    ensures Strip(s) == s
  {
  }

  /** One leading space goes with `strip()`. */
  lemma StripLeadingSpace(u: string)
    requires u != [] && !IsSpace(u[0]) && !IsSpace(u[|u| - 1])
    ensures Strip([' '] + u) == u
  {
    assert ([' '] + u)[1..] == u;
    assert TrimStart([' '] + u) == TrimStart(u);
    StripUnchanged(u);
  }

  /** Every character of `s` is whitespace. */
  predicate AllSpace(s: string)
  {
    forall i :: 0 <= i < |s| ==> IsSpace(s[i])
  }

  /** What `TrimStart` drops is whitespace. */
  lemma {:induction false} TrimStartDropsSpace(s: string)
    ensures AllSpace(s[..|s| - |TrimStart(s)|])
  {
    if s != [] && IsSpace(s[0]) {
      TrimStartDropsSpace(s[1..]);
      assert s[..|s| - |TrimStart(s)|] == [s[0]] + s[1..][..|s| - 1 - |TrimStart(s)|];
    }
  }

  /** What `TrimEnd` drops is whitespace. */
  lemma {:induction false} TrimEndDropsSpace(s: string)
    ensures AllSpace(s[|TrimEnd(s)|..])
  {
    if s != [] && IsSpace(s[|s| - 1]) {
      var pre := s[..|s| - 1];
      TrimEndDropsSpace(pre);
      assert s[|TrimEnd(s)|..] == pre[|TrimEnd(pre)|..] + [s[|s| - 1]];
    }
  }

  /** `strip()` cuts a string into leading whitespace, what it keeps, and trailing whitespace. */
  lemma StripSplit(t: string) returns (p: string, q: string)
    ensures t == p + Strip(t) + q && AllSpace(p) && AllSpace(q)
  {
    var ts := TrimStart(t);
    var m := Strip(t);
    p := t[..|t| - |ts|];
    q := ts[|m|..];
    TrimStartDropsSpace(t);
    TrimEndDropsSpace(ts);
    assert t == p + ts by {
      SplitAt(t, |t| - |ts|);
    }
    assert ts == m + q by {
      SplitAt(ts, |m|);
    }
    ConcatAssoc3(p, m, q);
  }

  lemma SplitAt(s: string, n: nat)
    requires n <= |s|
    ensures s == s[..n] + s[n..]
  {
  }

  lemma ConcatAssoc3(a: string, b: string, c: string)
    ensures a + b + c == a + (b + c)
  {
  }

  /** Leading whitespace goes with `TrimStart`, and trailing whitespace stays after kept text. */
  lemma {:induction false} TrimStartAppend(x: string, q: string)
    ensures TrimStart(x + q) == if TrimStart(x) == [] then TrimStart(q) else TrimStart(x) + q
  {
    if x == [] {
      assert x + q == q;
    } else if IsSpace(x[0]) {
      assert (x + q)[1..] == x[1..] + q;
      TrimStartAppend(x[1..], q);
    }
  }

  /** Trailing whitespace goes with `TrimEnd`. */
  lemma {:induction false} TrimEndPadded(y: string, q: string)
    requires AllSpace(q)
    ensures TrimEnd(y + q) == TrimEnd(y)
  {
    if q == [] {
      assert y + q == y;
    } else {
      assert (y + q)[..|y + q| - 1] == y + q[..|q| - 1];
      TrimEndPadded(y, q[..|q| - 1]);
    }
  }

  /** Leading whitespace goes with `TrimStart`. */
  lemma {:induction false} TrimStartPadded(p: string, y: string)
    requires AllSpace(p)
    ensures TrimStart(p + y) == TrimStart(y)
  {
    if p == [] {
      assert p + y == y;
    } else {
      assert (p + y)[1..] == p[1..] + y;
      TrimStartPadded(p[1..], y);
    }
  }

  /** Whitespace around a string changes nothing `strip()` keeps. */
  lemma StripPadded(p: string, x: string, q: string)
    requires AllSpace(p) && AllSpace(q)
    ensures Strip(p + x + q) == Strip(x)
  {
    var y := x + q;
    ConcatAssoc3(p, x, q);
    TrimStartPadded(p, y);
    TrimStartAppend(x, q);
    if TrimStart(x) == [] {
      TrimStartPadded(q, []);
      assert q + [] == q;
    } else {
      TrimEndPadded(TrimStart(x), q);
    }
  }

  /** `s.lstrip(chars)`: drops every leading character that is in `chars`. */
  function LStripChars(s: string, chars: set<char>): (r: string)
    ensures |r| <= |s| && r == s[|s| - |r|..]
    ensures r != [] ==> r[0] !in chars
  {
    if s != [] && s[0] in chars then LStripChars(s[1..], chars) else s
  }

  /** `s.replace(ch, "")` for a one-character `ch`. */
  function RemoveChar(s: string, ch: char): (r: string)
    ensures ch !in r
    ensures |r| <= |s|
  {
    if s == [] then []
    else (if s[0] == ch then [] else [s[0]]) + RemoveChar(s[1..], ch)
  }

  lemma {:induction false} RemoveCharAppend(a: string, b: string, ch: char)
    ensures RemoveChar(a + b, ch) == RemoveChar(a, ch) + RemoveChar(b, ch)
  {
    if a != [] {
      assert (a + b)[1..] == a[1..] + b;
      RemoveCharAppend(a[1..], b, ch);
    } else {
      assert a + b == b;
    }
  }

  /** Removing `ch` around a middle and an end that do not hold it. */
  lemma RemoveCharPrefix(p: string, q: string, mid: string, tail: string, ch: char)
    requires RemoveChar(p, ch) == q && ch !in mid && ch !in tail
    ensures RemoveChar(p + mid + tail, ch) == q + mid + tail
  {
    RemoveCharAppend(p + mid, tail, ch);
    RemoveCharAppend(p, mid, ch);
    RemoveCharAbsent(tail, ch);
    RemoveCharAbsent(mid, ch);
  }

  lemma RemoveCharSingle(d: char, ch: char)
    ensures RemoveChar([d], ch) == if d == ch then [] else [d]
  {
    assert [d][1..] == [];
  }

  lemma {:induction false} RemoveCharAbsent(s: string, ch: char)
    requires ch !in s
    ensures RemoveChar(s, ch) == s
  {
    if s != [] {
      RemoveCharAbsent(s[1..], ch);
    }
  }

  /** `str.lower()` on one character: ASCII and Latin-1 capitals. */
  function LowerChar(ch: char): char
  {
    if 'A' <= ch <= 'Z' || ('\U{C0}' <= ch <= '\U{DE}' && ch != '\U{D7}')
    then (ch as int + 32) as char
    else ch
  }

  /** `str.upper()` on one character, as far as ASCII letters go. */
  function UpperChar(ch: char): (u: char)
    ensures 'A' <= u <= 'Z' <==> ('A' <= ch <= 'Z' || 'a' <= ch <= 'z')
  {
    if 'a' <= ch <= 'z' then (ch as int - 32) as char else ch
  }

  function Lower(s: string): (r: string)
    ensures |r| == |s| && forall i :: 0 <= i < |s| ==> r[i] == LowerChar(s[i])
  {
    seq(|s|, i requires 0 <= i < |s| => LowerChar(s[i]))
  }

  function Upper(s: string): (r: string)
    ensures |r| == |s| && forall i :: 0 <= i < |s| ==> r[i] == UpperChar(s[i])
  {
    seq(|s|, i requires 0 <= i < |s| => UpperChar(s[i]))
  }

  predicate StartsWith(s: string, prefix: string)
  {
    |prefix| <= |s| && s[..|prefix|] == prefix
  }

  /** Python's `sub in s`. */
  predicate Contains(s: string, sub: string)
    decreases |s|
  {
    StartsWith(s, sub) || (s != [] && Contains(s[1..], sub))
  }

  /** `sub` occurs in `s` at offset `i`. */
  predicate OccursAt(s: string, sub: string, i: int)
  {
    0 <= i <= |s| - |sub| && s[i..i + |sub|] == sub
  }

  /** `Contains` is exactly "occurs at some offset". */
  lemma {:induction false} ContainsAt(s: string, sub: string)
    ensures Contains(s, sub) <==> exists i :: OccursAt(s, sub, i)
  {
    if s == [] {
      if Contains(s, sub) {
        assert OccursAt(s, sub, 0);
      }
    } else {
      ContainsAt(s[1..], sub);
      if Contains(s, sub) {
        if StartsWith(s, sub) {
          assert OccursAt(s, sub, 0);
        } else {
          var j :| OccursAt(s[1..], sub, j);
          assert s[j + 1..j + 1 + |sub|] == s[1..][j..j + |sub|];
          assert OccursAt(s, sub, j + 1);
        }
      }
      if exists i :: OccursAt(s, sub, i) {
        var i :| OccursAt(s, sub, i);
        if i > 0 {
          assert s[1..][i - 1..i - 1 + |sub|] == s[i..i + |sub|];
          assert OccursAt(s[1..], sub, i - 1);
        }
      }
    }
  }

  predicate IsDigit(ch: char)
  {
    '0' <= ch <= '9'
  }

  predicate AllDigits(s: string)
  {
    forall i :: 0 <= i < |s| ==> IsDigit(s[i])
  }

  function DigitValue(ch: char): nat
    requires IsDigit(ch)
  {
    ch as int - '0' as int
  }

  function DigitChar(d: nat): (ch: char)
    requires d < 10
    ensures IsDigit(ch) && DigitValue(ch) == d
  {
    ('0' as int + d) as char
  }

  /** The value of a run of decimal digits (`int(s)` for such an `s`). */
  function DigitsValue(s: string): nat
    requires AllDigits(s)
  {
    if s == [] then 0 else DigitsValue(s[..|s| - 1]) * 10 + DigitValue(s[|s| - 1])
  }

  lemma {:induction false} DigitsValueBound(s: string)
    requires AllDigits(s)
    ensures DigitsValue(s) < Pow10(|s|)
  {
    if s != [] {
      DigitsValueBound(s[..|s| - 1]);
    }
  }

  function Pow10(n: nat): (p: nat)
    ensures p >= 1
  {
    if n == 0 then 1 else 10 * Pow10(n - 1)
  }

  /** `str(n)` for a natural number: no leading zero, at least one digit. */
  function NatToDecimal(n: nat): (s: string)
    ensures s != [] && AllDigits(s)
    ensures |s| > 1 ==> s[0] != '0'
    decreases n
  {
    if n < 10 then [DigitChar(n)] else NatToDecimal(n / 10) + [DigitChar(n % 10)]
  }

  lemma {:induction false} NatToDecimalValue(n: nat)
    ensures DigitsValue(NatToDecimal(n)) == n
    decreases n
  {
    if n >= 10 {
      NatToDecimalValue(n / 10);
      var s := NatToDecimal(n);
      assert s[..|s| - 1] == NatToDecimal(n / 10);
    }
  }

  /** `str(i)` for any integer. */
  function IntToDecimal(i: int): (s: string)
    ensures i >= 0 ==> s == NatToDecimal(i)
    ensures i < 0 ==> s == "-" + NatToDecimal(-i)
  {
    if i < 0 then "-" + NatToDecimal(-i) else NatToDecimal(i)
  }

  /** `f"{n:0{width}d}"` for a natural number that fits the width. */
  function ZeroPad(n: nat, width: nat): (s: string)
    requires n < Pow10(width)
    ensures |s| == width && AllDigits(s) && DigitsValue(s) == n
  {
    if width == 0 then ""
    else
      var s := ZeroPad(n / 10, width - 1) + [DigitChar(n % 10)];
      assert s[..|s| - 1] == ZeroPad(n / 10, width - 1);
      s
  }
}
