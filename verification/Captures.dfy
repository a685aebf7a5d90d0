/** What the string tests and captures of `Texts` find, in terms of characters and places. */
module Captures {
  import opened Records
  import opened Texts

  /** A text contains another iff it can be cut around it. */
  lemma ContainsMeans(hay: string, needle: string)
    ensures Contains(hay, needle) <==> exists before: string, after: string :: hay == before + needle + after
  {
    if Contains(hay, needle) {
      var i :| 0 <= i <= |hay| && StartsWith(hay[i..], needle);
      assert hay == hay[..i] + needle + hay[i + |needle|..];
    }
    forall before: string, after: string | hay == before + needle + after
      ensures Contains(hay, needle)
    {
      assert hay[|before|..] == needle + after;
      assert StartsWith(hay[|before|..], needle);
    }
  }

  /** Two characters fold to the same one iff they are equal or the two cases of a letter. */
  lemma FoldMeans(a: char, b: char)
    ensures LowerAscii(a) == LowerAscii(b)
       <==> a == b || ('A' <= a <= 'Z' && b as int == a as int + 32) || ('A' <= b <= 'Z' && a as int == b as int + 32)
  {
  }

  /** The capture is as long as it can be. */
  lemma {:induction false} DigitPrefixIsMaximal(s: string)
    ensures |DigitPrefix(s)| < |s| ==> !IsDigit(s[|DigitPrefix(s)|])
  {
    if s != "" && IsDigit(s[0]) {
      DigitPrefixIsMaximal(s[1..]);
    }
  }

  /** At `i` stands the marker, in any case, and a digit behind it. */
  ghost predicate MarkedAt(s: string, marker: string, i: nat) {
    && i + |marker| < |s| && IsDigit(s[i + |marker|])
    && forall k :: 0 <= k < |marker| ==> LowerAscii(s[i + k]) == LowerAscii(marker[k])
  }

  /** The first such place, and all the digits that stand there. */
  ghost predicate FirstCapture(s: string, marker: string, i: nat, digits: string) {
    && MarkedAt(s, marker, i) && (forall j: nat :: j < i ==> !MarkedAt(s, marker, j))
    && digits != "" && AllDigits(digits) && digits <= s[i + |marker|..]
    && (i + |marker| + |digits| < |s| ==> !IsDigit(s[i + |marker| + |digits|]))
  }

  lemma MarkedHere(s: string, marker: string)
    ensures MarkedAt(s, marker, 0)
       <==> StartsWithIgnoringCase(s, marker) && DigitPrefix(s[|marker|..]) != ""
  {
    if |marker| < |s| {
      assert s[|marker|..][0] == s[|marker|];
    }
  }

  lemma MarkedLater(s: string, marker: string, i: nat)
    requires s != ""
    ensures MarkedAt(s, marker, i + 1) <==> MarkedAt(s[1..], marker, i)
  {
    if i + 1 + |marker| < |s| {
      assert s[1..][i + |marker|] == s[i + 1 + |marker|];
      forall k {:trigger marker[k]} | 0 <= k < |marker|
        ensures s[1..][i + k] == s[i + 1 + k]
      {
      }
    }
  }

  /** The digits behind the first marker that has any, nothing iff no marker has. */
  ghost predicate Captures(s: string, marker: string, found: Option<string>) {
    match found
    case None => forall i: nat :: !MarkedAt(s, marker, i)
    case Some(d) => exists i: nat :: FirstCapture(s, marker, i, d)
  }

  lemma {:induction false} DigitsAfterIsFirst(s: string, marker: string)
    ensures Captures(s, marker, DigitsAfter(s, marker))
  {
    if |s| >= |marker| && s != "" {
      MarkedHere(s, marker);
      if MarkedAt(s, marker, 0) {
        DigitPrefixIsMaximal(s[|marker|..]);
        assert FirstCapture(s, marker, 0, DigitPrefix(s[|marker|..]));
      } else {
        DigitsAfterIsFirst(s[1..], marker);
        CapturesLater(s, marker, DigitsAfter(s[1..], marker));
      }
    }
  }

  /** Without a marker at the front the first capture is the one of the rest. */
  lemma CapturesLater(s: string, marker: string, found: Option<string>)
    requires s != "" && !MarkedAt(s, marker, 0) && Captures(s[1..], marker, found)
    ensures Captures(s, marker, found)
  {
    forall i: nat
      ensures MarkedAt(s, marker, i) <==> i > 0 && MarkedAt(s[1..], marker, i - 1)
    {
      if i > 0 {
        MarkedLater(s, marker, i - 1);
      }
    }
    if found.Some? {
      var i: nat :| FirstCapture(s[1..], marker, i, found.value);
      assert s[1..][i + |marker|..] == s[i + 1 + |marker|..];
      assert MarkedAt(s, marker, i + 1);
      assert FirstCapture(s, marker, i + 1, found.value);
    }
  }

  predicate IsNumber(d: string) { d != "" && AllDigits(d) }

  /** The anchored capture: the whole text is the prefix and a number. */
  lemma DigitsOfMeans(s: string, prefix: string, d: string)
    ensures DigitsOf(s, prefix) == Some(d) <==> IsNumber(d) && s == prefix + d
  {
    if s == prefix + d {
      assert s[|prefix|..] == d;
    }
  }

  function PowerOfTen(n: nat): nat { if n == 0 then 1 else 10 * PowerOfTen(n - 1) }

  /** Digits count by their place: a number written behind another shifts it to the left. */
  lemma {:induction false} DigitsCountByPlace(a: string, b: string)
    requires AllDigits(a) && AllDigits(b)
    ensures AllDigits(a + b) && ParseDigits(a + b) == ParseDigits(a) * PowerOfTen(|b|) + ParseDigits(b)
    ensures |b| == 1 ==> ParseDigits(b) == b[0] as int - '0' as int
    decreases |b|
  {
    if b == [] {
      assert a + b == a;
    } else {
      var front := b[..|b| - 1];
      DigitsCountByPlace(a, front);
      assert (a + b)[..|a + b| - 1] == a + front;
      TenTimes(ParseDigits(a), PowerOfTen(|front|));
      if |b| == 1 {
        assert front == "";
      }
    }
  }

  lemma TenTimes(x: int, y: int)
    ensures 10 * (x * y) == x * (10 * y)
  {
  }

  /** The ten digits and what they count for. */
  lemma DigitMeans(c: char)
    ensures IsDigit(c) <==> 48 <= c as int <= 57
    ensures IsDigit(c) ==> ParseDigits([c]) == c as int - 48
  {
    assert [c][..0] == "";
  }

  predicate IsBlankCode(n: int) {
    || 9 <= n <= 13 || n == 32 || n == 160 || n == 5760 || 8192 <= n <= 8202 || n == 8232 || n == 8233 || n == 8239
    || n == 8287 || n == 12288 || n == 65279
  }

  /** White space by code point. */
  lemma BlankMeans(c: char)
    ensures IsBlank(c) <==> IsBlankCode(c as int)
  {
  }

  predicate AllBlank(s: string) { forall i :: 0 <= i < |s| ==> IsBlank(s[i]) }

  /** Only white space is dropped, and all of it. */
  lemma {:induction false} TrimStartMeans(blank: string, rest: string)
    requires AllBlank(blank) && (rest == "" || !IsBlank(rest[0]))
    ensures TrimStart(blank + rest) == rest
  {
    if blank == "" {
      assert blank + rest == rest;
    } else {
      TrimStartMeans(blank[1..], rest);
      assert (blank + rest)[1..] == blank[1..] + rest;
    }
  }

  lemma {:induction false} DigitPrefixOf(digits: string, rest: string)
    requires AllDigits(digits) && (rest == "" || !IsDigit(rest[0]))
    ensures DigitPrefix(digits + rest) == digits
  {
    if digits == "" {
      assert digits + rest == rest;
    } else {
      DigitPrefixOf(digits[1..], rest);
      assert (digits + rest)[1..] == digits[1..] + rest;
    }
  }

  /** How a number is read: white space, a sign, digits, and anything behind them; without digits it is none. */
  lemma ParseIntMeans(blank: string, sign: string, digits: string, rest: string)
    requires AllBlank(blank) && IsSign(sign) && AllDigits(digits)
    requires rest == "" || !IsDigit(rest[0])
    requires sign == "" && digits == "" ==> rest == "" || (!IsBlank(rest[0]) && rest[0] != '-' && rest[0] != '+')
    ensures ParseInt(blank + (sign + (digits + rest)))
      == if digits == "" then None else Some((if sign == "-" then -1 else 1) * ParseDigits(digits))
  {
    var tail := digits + rest;
    NoSignInFront(sign, digits, rest);
    SignedNumber(sign, tail);
    TrimStartMeans(blank, sign + tail);
    DigitPrefixOf(digits, rest);
    ReadTrimmed(blank + (sign + tail), sign + tail, sign == "-", digits);
  }

  lemma ReadTrimmed(s: string, t: string, negative: bool, digits: string)
    requires TrimStart(s) == t && (t != "" && t[0] == '-' <==> negative)
    requires DigitPrefix(if t != "" && (t[0] == '-' || t[0] == '+') then t[1..] else t) == digits
    ensures ParseInt(s) == if digits == "" then None else Some((if negative then -1 else 1) * ParseDigits(digits))
  {
  }

  lemma NoSignInFront(sign: string, digits: string, rest: string)
    requires AllDigits(digits)
    requires sign == "" && digits == "" ==> rest == "" || (!IsBlank(rest[0]) && rest[0] != '-' && rest[0] != '+')
    ensures var tail := digits + rest;
      sign == "" && tail != "" ==> !IsBlank(tail[0]) && tail[0] != '-' && tail[0] != '+'
  {
    if digits != "" {
      assert (digits + rest)[0] == digits[0] && IsDigit(digits[0]);
    } else {
      assert digits + rest == rest;
    }
  }

  predicate IsSign(s: string) { s == "" || s == "-" || s == "+" }

  lemma SignedNumber(sign: string, tail: string)
    requires IsSign(sign)
    requires sign == "" && tail != "" ==> !IsBlank(tail[0]) && tail[0] != '-' && tail[0] != '+'
    ensures var t := sign + tail;
      && (t == "" || !IsBlank(t[0]))
      && (t != "" && t[0] == '-' <==> sign == "-")
      && (if t != "" && (t[0] == '-' || t[0] == '+') then t[1..] else t) == tail
  {
    if sign == "" {
      assert sign + tail == tail;
    } else {
      assert (sign + tail)[1..] == tail;
    }
  }
}
