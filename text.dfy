/**
 * The JavaScript string operations the screens rely on: `toLowerCase`
 * (ASCII letters only), `trim`, `includes` and number-to-decimal text.
 */
module Text {

  /** JavaScript's WhiteSpace and LineTerminator characters, which `trim` removes. */
  predicate IsWhitespace(c: char)
  {
    c == ' ' || c == '\t' || c == '\n' || c == '\r' || c == '\U{000B}' || c == '\U{000C}'
    || c == '\U{00A0}' || c == '\U{1680}' || ('\U{2000}' <= c <= '\U{200A}')
    || c == '\U{2028}' || c == '\U{2029}' || c == '\U{202F}' || c == '\U{205F}'
    || c == '\U{3000}' || c == '\U{FEFF}'
  }

  predicate AllWhitespace(s: string)
  {
    forall i :: 0 <= i < |s| ==> IsWhitespace(s[i])
  }

  function LowerChar(c: char): char
  {
    if 'A' <= c <= 'Z' then (c as int + 32) as char else c
  }

  /** `s.toLowerCase()`, restricted to ASCII letters. */
  function Lower(s: string): string
  {
    seq(|s|, i requires 0 <= i < |s| => LowerChar(s[i]))
  }

  /** What `Lower` does: same length, no upper-case ASCII letter left, every other character kept. */
  lemma LowerMeaning(s: string)
    ensures |Lower(s)| == |s|
    ensures forall i :: 0 <= i < |s| ==> !('A' <= Lower(s)[i] <= 'Z')
    ensures forall i :: 0 <= i < |s| && !('A' <= s[i] <= 'Z') ==> Lower(s)[i] == s[i]
    ensures forall i :: 0 <= i < |s| && 'A' <= s[i] <= 'Z' ==> Lower(s)[i] as int == s[i] as int + 32
  {
  }

  /** `s.trimStart()`: drops the leading whitespace. */
  function TrimStart(s: string): string
  {
    if s != [] && IsWhitespace(s[0]) then TrimStart(s[1..]) else s
  }

  /** `s.trimEnd()`: drops the trailing whitespace. */
  function TrimEnd(s: string): string
  {
    if s != [] && IsWhitespace(s[|s| - 1]) then TrimEnd(s[..|s| - 1]) else s
  }

  /** `s.trim()`: the text between the leading and the trailing whitespace. */
  function Trim(s: string): string
  {
    TrimEnd(TrimStart(s))
  }

  /** `trimStart` keeps a suffix of the text, having dropped only whitespace. */
  lemma {:induction false} TrimStartShape(s: string)
    ensures |TrimStart(s)| <= |s| && TrimStart(s) == s[|s| - |TrimStart(s)|..]
    ensures forall k :: 0 <= k < |s| - |TrimStart(s)| ==> IsWhitespace(s[k])
    ensures TrimStart(s) != [] ==> !IsWhitespace(TrimStart(s)[0])
  {
    if s != [] && IsWhitespace(s[0]) {
      var r := TrimStart(s[1..]);
      assert TrimStart(s) == r;
      TrimStartShape(s[1..]);
      assert s[1..][|s[1..]| - |r|..] == s[|s| - |r|..];
      forall k | 0 <= k < |s| - |r| ensures IsWhitespace(s[k]) {
        if k > 0 {
          assert s[k] == s[1..][k - 1];
        }
      }
    }
  }

  /** `trimEnd` keeps a prefix of the text, having dropped only whitespace. */
  lemma {:induction false} TrimEndShape(s: string)
    ensures TrimEnd(s) <= s
    ensures forall k :: |TrimEnd(s)| <= k < |s| ==> IsWhitespace(s[k])
    ensures TrimEnd(s) != [] ==> !IsWhitespace(TrimEnd(s)[|TrimEnd(s)| - 1])
  {
    if s != [] && IsWhitespace(s[|s| - 1]) {
      var r := TrimEnd(s[..|s| - 1]);
      assert TrimEnd(s) == r;
      TrimEndShape(s[..|s| - 1]);
      forall k | |r| <= k < |s| ensures IsWhitespace(s[k]) {
        if k < |s| - 1 {
          assert s[k] == s[..|s| - 1][k];
        }
      }
    }
  }

  /** The trimmed text has no whitespace at either end. */
  lemma TrimEnds(s: string)
    ensures Trim(s) != [] ==> !IsWhitespace(Trim(s)[0]) && !IsWhitespace(Trim(s)[|Trim(s)| - 1])
  {
    var t := TrimStart(s);
    var r := TrimEnd(t);
    TrimStartShape(s);
    TrimEndShape(t);
    if r != [] {
      var first, last := r[0], r[|r| - 1];
      assert first == t[0];
      assert !IsWhitespace(first);
      assert !IsWhitespace(last);
    }
  }

  /** A text with no whitespace at either end is its own trim. */
  lemma TrimUntouched(s: string)
    requires s != [] && !IsWhitespace(s[0]) && !IsWhitespace(s[|s| - 1])
    ensures Trim(s) == s
  {
    assert TrimStart(s) == s;
  }

  /** The trimmed text is a contiguous slice of `s`. */
  lemma TrimIsSlice(s: string)
    ensures exists i, j :: 0 <= i <= j <= |s| && Trim(s) == s[i..j]
  {
    TrimStartShape(s);
    var i := |s| - |TrimStart(s)|;
    TrimSliceAt(s, i, i + |Trim(s)|);
  }

  lemma TrimSliceAt(s: string, i: int, j: int)
    requires i == |s| - |TrimStart(s)| && j == i + |Trim(s)|
    ensures 0 <= i <= j <= |s| && Trim(s) == s[i..j]
  {
    var t := TrimStart(s);
    TrimStartShape(s);
    TrimEndShape(t);
    assert t == s[i..];
    assert Trim(s) == t[..j - i];
    assert t[..j - i] == s[i..j];
  }

  lemma {:induction false} TrimStartBlank(s: string)
    requires AllWhitespace(s)
    ensures TrimStart(s) == []
  {
    if s != [] {
      TrimStartBlank(s[1..]);
    }
  }

  /** `s.trim()` is empty exactly when `s` consists of whitespace only. */
  lemma TrimEmptyIff(s: string)
    ensures Trim(s) == [] <==> AllWhitespace(s)
  {
    var t := TrimStart(s);
    TrimStartShape(s);
    if AllWhitespace(s) {
      TrimStartBlank(s);
    } else {
      var i :| 0 <= i < |s| && !IsWhitespace(s[i]);
      assert t != [];
      TrimEndShape(t);
    }
  }

  /** Trimming again changes nothing. */
  lemma TrimIdempotent(s: string)
    ensures Trim(Trim(s)) == Trim(s)
  {
    var r := Trim(s);
    TrimEnds(s);
    if r != [] {
      assert TrimStart(r) == r;
      assert TrimEnd(r) == r;
    }
  }

  lemma {:induction false} TrimStartAfterBlank(w: string, x: string)
    requires AllWhitespace(w)
    ensures TrimStart(w + x) == TrimStart(x)
  {
    if w == [] {
      assert w + x == x;
    } else {
      assert (w + x)[1..] == w[1..] + x;
      TrimStartAfterBlank(w[1..], x);
    }
  }

  lemma {:induction false} TrimEndBeforeBlank(x: string, w: string)
    requires AllWhitespace(w)
    ensures TrimEnd(x + w) == TrimEnd(x)
  {
    if w == [] {
      assert x + w == x;
    } else {
      var v := w[..|w| - 1];
      assert (x + w)[..|x + w| - 1] == x + v;
      TrimEndBeforeBlank(x, v);
    }
  }

  /** Trailing text survives `trimStart` once a non-blank character has been met. */
  lemma {:induction false} TrimStartKeepsRest(x: string, w: string)
    requires !AllWhitespace(x)
    ensures TrimStart(x + w) == TrimStart(x) + w
  {
    if IsWhitespace(x[0]) {
      assert (x + w)[1..] == x[1..] + w;
      TrimStartKeepsRest(x[1..], w);
    }
  }

  lemma TrimLeadingBlank(w: string, x: string)
    requires AllWhitespace(w)
    ensures Trim(w + x) == Trim(x)
  {
    TrimStartAfterBlank(w, x);
  }

  lemma TrimTrailingBlank(x: string, w: string)
    requires AllWhitespace(w)
    ensures Trim(x + w) == Trim(x)
  {
    if AllWhitespace(x) {
      assert AllWhitespace(x + w);
      TrimStartBlank(x + w);
      TrimStartBlank(x);
    } else {
      TrimStartKeepsRest(x, w);
      TrimEndBeforeBlank(TrimStart(x), w);
    }
  }

  /** Surrounding whitespace does not change what `trim` returns. */
  lemma TrimPadding(w1: string, q: string, w2: string)
    requires AllWhitespace(w1) && AllWhitespace(w2)
    ensures Trim(w1 + q + w2) == Trim(q)
  {
    TrimTrailingBlank(w1 + q, w2);
    TrimLeadingBlank(w1, q);
  }

  lemma LowerKeepsWhitespace(c: char)
    ensures IsWhitespace(LowerChar(c)) <==> IsWhitespace(c)
  {
  }

  lemma {:induction false} TrimStartLower(s: string)
    ensures TrimStart(Lower(s)) == Lower(TrimStart(s))
  {
    if s != [] {
      LowerKeepsWhitespace(s[0]);
      if IsWhitespace(s[0]) {
        assert Lower(s)[1..] == Lower(s[1..]);
        TrimStartLower(s[1..]);
      }
    }
  }

  lemma {:induction false} TrimEndLower(s: string)
    ensures TrimEnd(Lower(s)) == Lower(TrimEnd(s))
  {
    if s != [] {
      LowerKeepsWhitespace(s[|s| - 1]);
      if IsWhitespace(s[|s| - 1]) {
        var ls, n := Lower(s), |s| - 1;
        assert ls[n] == LowerChar(s[n]);
        assert ls[..n] == Lower(s[..n]);
        TrimEndLower(s[..n]);
      }
    }
  }

  /** Lower-casing and trimming commute, so `q.toLowerCase().trim()` is `q.trim().toLowerCase()`. */
  lemma TrimLowerCommute(s: string)
    ensures Trim(Lower(s)) == Lower(Trim(s))
  {
    TrimStartLower(s);
    TrimEndLower(TrimStart(s));
  }

  /** Lower-casing never turns a non-blank text into a blank one, or back. */
  lemma TrimLowerEmptyIff(s: string)
    ensures Trim(Lower(s)) == [] <==> Trim(s) == []
  {
    TrimLowerCommute(s);
  }

  /** The declarative meaning of `s.includes(sub)`: `sub` occurs at some index of `s`. */
  ghost predicate OccursIn(sub: string, s: string)
  {
    exists i :: 0 <= i <= |s| && sub <= s[i..]
  }

  /** `s.includes(sub)`, scanning from the left. */
  function Includes(s: string, sub: string): (r: bool)
    ensures sub == [] ==> r
    ensures r ==> |sub| <= |s|
  {
    if sub <= s then true
    else if s == [] then false
    else Includes(s[1..], sub)
  }

  lemma {:induction false} IncludesIff(s: string, sub: string)
    ensures Includes(s, sub) <==> OccursIn(sub, s)
  {
    if sub <= s {
      assert s[0..] == s;
    } else if s == [] {
      assert forall i :: 0 <= i <= |s| ==> s[i..] == s;
    } else {
      IncludesIff(s[1..], sub);
      if OccursIn(sub, s) {
        var i :| 0 <= i <= |s| && sub <= s[i..];
        assert i != 0;
        assert s[1..][i - 1..] == s[i..];
      }
      if OccursIn(sub, s[1..]) {
        var i :| 0 <= i <= |s[1..]| && sub <= s[1..][i..];
        assert s[1..][i..] == s[i + 1..];
      }
    }
  }

  /** A text that lacks one of the characters of `sub` does not contain `sub`. */
  lemma {:induction false} MissingCharNotIncluded(s: string, sub: string, i: nat)
    requires i < |sub| && sub[i] !in s
    ensures !Includes(s, sub)
  {
    if i < |s| {
      assert s[i] in s;
    }
    assert !(sub <= s);
    if s != [] {
      assert forall c :: c in s[1..] ==> c in s;
      MissingCharNotIncluded(s[1..], sub, i);
    }
  }

  /** A text shorter than `sub` does not contain it. */
  lemma {:induction false} ShorterNotIncluded(s: string, sub: string)
    requires |s| < |sub|
    ensures !Includes(s, sub)
  {
    if s != [] {
      ShorterNotIncluded(s[1..], sub);
    }
  }

  /** The scan may skip the first `k` positions when `sub` starts at none of them. */
  lemma {:induction false} IncludesSkip(s: string, sub: string, k: nat)
    requires k <= |s|
    requires forall i :: 0 <= i < k ==> !(sub <= s[i..])
    ensures Includes(s, sub) == Includes(s[k..], sub)
  {
    if k > 0 {
      assert !(sub <= s[0..]);
      assert s[0..] == s;
      forall i | 0 <= i < k - 1 ensures !(sub <= s[1..][i..]) {
        assert s[1..][i..] == s[i + 1..];
      }
      IncludesSkip(s[1..], sub, k - 1);
      assert s[1..][k - 1..] == s[k..];
    }
  }

  /** Lower-casing neither adds nor removes a character that is not a letter. */
  lemma LowerOmits(s: string, c: char)
    requires !('a' <= c <= 'z') && !('A' <= c <= 'Z')
    ensures c in Lower(s) <==> c in s
  {
    if c in s {
      var i :| 0 <= i < |s| && s[i] == c;
      assert Lower(s)[i] == c;
    }
    if c in Lower(s) {
      var i :| 0 <= i < |s| && Lower(s)[i] == c;
      assert s[i] == c;
    }
  }

  function DigitChar(d: nat): char
    requires d < 10
  {
    ('0' as int + d) as char
  }

  predicate IsDigit(c: char)
  {
    '0' <= c <= '9'
  }

  predicate AllDigits(s: string)
  {
    forall i :: 0 <= i < |s| ==> IsDigit(s[i])
  }

  /** `String(n)` for a non-negative integer: its decimal digits, no leading zero. */
  function Decimal(n: nat): (r: string)
    ensures |r| >= 1
    ensures AllDigits(r)
    ensures r[0] == '0' ==> n == 0
  {
    if n < 10 then [DigitChar(n)] else Decimal(n / 10) + [DigitChar(n % 10)]
  }

  /** Reads decimal digits back into a number. */
  function DecimalValue(s: string): nat
    requires AllDigits(s)
  {
    if s == [] then 0
    else
      assert IsDigit(s[|s| - 1]);
      10 * DecimalValue(s[..|s| - 1]) + (s[|s| - 1] as int - '0' as int)
  }

  lemma {:induction false} DecimalRoundTrip(n: nat)
    ensures DecimalValue(Decimal(n)) == n
  {
    if n >= 10 {
      DecimalRoundTrip(n / 10);
      var r := Decimal(n);
      assert r[..|r| - 1] == Decimal(n / 10);
    }
  }
}
