/** The string functions of the PHP runtime that the license code relies on.
    Text is a sequence of characters; every function here works on ASCII the
    way PHP's byte-wise functions do. */
module PhpStrings {

  predicate IsUpper(c: char) { 'A' <= c <= 'Z' }

  /** `strtolower` on one character: only the ASCII letters change. */
  function LowerChar(c: char): char {
    if IsUpper(c) then (c as int + 32) as char else c
  }

  /** `strtolower`. */
  function Lower(s: string): (r: string)
    ensures |r| == |s|
    ensures forall i :: 0 <= i < |s| ==> r[i] == LowerChar(s[i])
    ensures forall i :: 0 <= i < |r| ==> !IsUpper(r[i])
  {
    if s == [] then [] else [LowerChar(s[0])] + Lower(s[1..])
  }

  /** `false !== strpos( $s, $sub )`: `sub` occurs somewhere in `s`. */
  predicate Contains(s: string, sub: string)
    decreases |s|
  {
    |sub| <= |s| && (s[..|sub|] == sub || Contains(s[1..], sub))
  }

  /** A one-character needle occurs exactly when the character does. */
  lemma {:induction false} ContainsChar(s: string, c: char)
    ensures Contains(s, [c]) <==> c in s
    decreases |s|
  {
    if s != [] {
      ContainsChar(s[1..], c);
      assert s == [s[0]] + s[1..];
    }
  }

  /** `str_replace( $pat, $rep, $s )`: scans left to right and replaces every
      non-overlapping occurrence of `pat`; the replacement text is not
      scanned again. */
  function ReplaceAll(s: string, pat: string, rep: string): (r: string)
    requires pat != []
    ensures !Contains(s, pat) ==> r == s
    ensures |pat| == 1 && pat[0] !in rep ==> pat[0] !in r
    ensures rep == [] ==> |r| <= |s|
    decreases |s|
  {
    if |s| < |pat| then s
    else if s[..|pat|] == pat then rep + ReplaceAll(s[|pat|..], pat, rep)
    else [s[0]] + ReplaceAll(s[1..], pat, rep)
  }

  /** `sub` sits in `s` starting at position `i`. */
  predicate OccursAt(s: string, sub: string, i: int) {
    0 <= i && i + |sub| <= |s| && s[i..i + |sub|] == sub
  }

  /** `str_replace` brings in no character that is neither in the text nor
      in the replacement. */
  lemma {:induction false} ReplaceAllAlphabet(s: string, pat: string, rep: string)
    requires pat != []
    ensures forall c :: c in ReplaceAll(s, pat, rep) ==> c in s || c in rep
    decreases |s|
  {
    if |s| < |pat| {
    } else if s[..|pat|] == pat {
      ReplaceAllAlphabet(s[|pat|..], pat, rep);
    } else {
      ReplaceAllAlphabet(s[1..], pat, rep);
    }
  }

  /** `strpos` finds `sub` exactly when it sits at some position of `s`. */
  lemma {:induction false} ContainsSomewhere(s: string, sub: string)
    ensures Contains(s, sub) <==> exists i :: OccursAt(s, sub, i)
    decreases |s|
  {
    if |sub| > |s| {
    } else if s[..|sub|] == sub {
      assert OccursAt(s, sub, 0);
    } else {
      var t := s[1..];
      ContainsSomewhere(t, sub);
      if Contains(t, sub) {
        var j :| OccursAt(t, sub, j);
        assert s[j + 1..j + 1 + |sub|] == t[j..j + |sub|];
        assert OccursAt(s, sub, j + 1);
      }
      if exists i :: OccursAt(s, sub, i) {
        var i :| OccursAt(s, sub, i);
        assert i != 0;
        assert t[i - 1..i - 1 + |sub|] == s[i..i + |sub|];
        assert OccursAt(t, sub, i - 1);
      }
    }
  }

  /** A needle found in the tail of `t` is found in `t`. */
  lemma ContainsTail(t: string, sub: string)
    requires t != [] && Contains(t[1..], sub)
    ensures Contains(t, sub)
  {
  }

  /** A needle that starts `t` is found in `t`. */
  lemma ContainsHead(t: string, sub: string)
    requires |sub| <= |t| && t[..|sub|] == sub
    ensures Contains(t, sub)
  {
  }

  /** A needle placed anywhere inside a text is found there. */
  lemma {:induction false} ContainsInside(p: string, sub: string, q: string)
    ensures Contains(p + sub + q, sub)
    decreases |p|
  {
    var t := p + sub + q;
    if p == [] {
      assert t[..|sub|] == sub;
      ContainsHead(t, sub);
    } else {
      assert t[1..] == p[1..] + sub + q;
      ContainsInside(p[1..], sub, q);
      ContainsTail(t, sub);
    }
  }

  /** When `s` does not start with `pat`, `str_replace` keeps its first
      character and goes on with the rest. */
  lemma ReplaceAllSkips(s: string, pat: string, rep: string)
    requires pat != [] && |pat| <= |s| && s[..|pat|] != pat
    ensures ReplaceAll(s, pat, rep) == [s[0]] + ReplaceAll(s[1..], pat, rep)
  {
  }

  /** When `s` starts with `pat`, `str_replace` emits `rep` and goes on after
      the occurrence. */
  lemma ReplaceAllMatches(pat: string, b: string, rep: string)
    requires pat != []
    ensures ReplaceAll(pat + b, pat, rep) == rep + ReplaceAll(b, pat, rep)
  {
    var s := pat + b;
    assert s[..|pat|] == pat && s[|pat|..] == b;
  }

  /** A prefix free of `pat` (even overlapping the needle's start) keeps
      `a + pat + b` from starting with `pat`, and stays free without its
      first character. */
  lemma NoMatchBeforeFirst(a: string, b: string, pat: string)
    requires a != [] && pat != [] && !Contains(a + pat[..|pat| - 1], pat)
    ensures (a + pat + b)[..|pat|] != pat
    ensures !Contains(a[1..] + pat[..|pat| - 1], pat)
  {
    var head := a + pat[..|pat| - 1];
    assert (a + pat + b)[..|pat|] == head[..|pat|];
    if (a + pat + b)[..|pat|] == pat {
      ContainsHead(head, pat);
    }
    assert head[1..] == a[1..] + pat[..|pat| - 1];
    if Contains(a[1..] + pat[..|pat| - 1], pat) {
      ContainsTail(head, pat);
    }
  }

  /** Proof step for `ReplaceAllKeepsFirst`: putting the first character
      back in front of the rest. */
  lemma ConsRest(a: string, x: string)
    requires a != []
    ensures [a[0]] + (a[1..] + x) == a + x
  {
    assert [a[0]] + a[1..] == a;
  }

  /** One step of the scan: a character before the first occurrence is kept. */
  lemma ReplaceAllKeepsFirst(a: string, b: string, pat: string, rep: string)
    requires a != [] && pat != [] && (a + pat + b)[..|pat|] != pat
    requires ReplaceAll(a[1..] + pat + b, pat, rep) == a[1..] + rep + ReplaceAll(b, pat, rep)
    ensures ReplaceAll(a + pat + b, pat, rep) == a + rep + ReplaceAll(b, pat, rep)
  {
    var s := a + pat + b;
    var t := a[1..] + pat + b;
    var r := ReplaceAll(b, pat, rep);
    assert s[0] == a[0] && s[1..] == t;
    ReplaceAllSkips(s, pat, rep);
    assert ReplaceAll(s, pat, rep) == [a[0]] + (a[1..] + rep + r);
    assert a[1..] + rep + r == a[1..] + (rep + r);
    ConsRest(a, rep + r);
    assert a + (rep + r) == a + rep + r;
  }

  /** `str_replace` replaces the leftmost occurrence: text before it is kept,
      the occurrence becomes `rep`, and the scan resumes after it. `a` holds
      no occurrence, not even one that overlaps the needle's start. */
  lemma {:induction false} ReplaceAllAtFirst(a: string, b: string, pat: string, rep: string)
    requires pat != [] && !Contains(a + pat[..|pat| - 1], pat)
    ensures ReplaceAll(a + pat + b, pat, rep) == a + rep + ReplaceAll(b, pat, rep)
    decreases |a|
  {
    if a == [] {
      assert a + pat + b == pat + b;
      ReplaceAllMatches(pat, b, rep);
    } else {
      NoMatchBeforeFirst(a, b, pat);
      ReplaceAllAtFirst(a[1..], b, pat, rep);
      ReplaceAllKeepsFirst(a, b, pat, rep);
    }
  }

  /** With a one-character needle and a one-character replacement,
      `str_replace` maps every character on its own. */
  lemma {:induction false} ReplaceAllChar(s: string, c: char, d: char)
    ensures |ReplaceAll(s, [c], [d])| == |s|
    ensures forall i :: 0 <= i < |s| ==> ReplaceAll(s, [c], [d])[i] == if s[i] == c then d else s[i]
    decreases |s|
  {
    if s != [] {
      ReplaceAllChar(s[1..], c, d);
    }
  }

  /** The characters PHP's `trim` strips by default: " \t\n\r\0\x0B". */
  predicate IsTrimChar(c: char) {
    c == ' ' || c == '\t' || c == '\n' || c == '\r' || c == '\0' || c as int == 0x0B
  }

  /** `ltrim`: drops trim characters from the front. */
  function TrimLeft(s: string): string
    decreases |s|
  {
    if s != [] && IsTrimChar(s[0]) then TrimLeft(s[1..]) else s
  }

  /** `rtrim`: drops trim characters from the back. */
  function TrimRight(s: string): string
    decreases |s|
  {
    if s != [] && IsTrimChar(s[|s| - 1]) then TrimRight(s[..|s| - 1]) else s
  }

  /** `trim`. Its properties are the lemmas below, so that callers which only
      compare trimmed text do not carry them. */
  function Trim(s: string): string {
    TrimRight(TrimLeft(s))
  }

  /** `ltrim` keeps a suffix and drops only trim characters before it. */
  lemma {:induction false} TrimLeftKeepsSuffix(s: string)
    ensures |TrimLeft(s)| <= |s| && TrimLeft(s) == s[|s| - |TrimLeft(s)|..]
    ensures forall i :: 0 <= i < |s| - |TrimLeft(s)| ==> IsTrimChar(s[i])
    ensures TrimLeft(s) == [] || !IsTrimChar(TrimLeft(s)[0])
    decreases |s|
  {
    if s != [] && IsTrimChar(s[0]) {
      var t := s[1..];
      TrimLeftKeepsSuffix(t);
      assert forall i :: 1 <= i < |s| - |TrimLeft(s)| ==> s[i] == t[i - 1];
    }
  }

  /** `rtrim` keeps a prefix and drops only trim characters after it. */
  lemma {:induction false} TrimRightKeepsPrefix(s: string)
    ensures |TrimRight(s)| <= |s| && TrimRight(s) == s[..|TrimRight(s)|]
    ensures forall i :: |TrimRight(s)| <= i < |s| ==> IsTrimChar(s[i])
    ensures TrimRight(s) == [] || !IsTrimChar(TrimRight(s)[|TrimRight(s)| - 1])
    decreases |s|
  {
    if s != [] && IsTrimChar(s[|s| - 1]) {
      var t := s[..|s| - 1];
      TrimRightKeepsPrefix(t);
      assert forall i :: |TrimRight(s)| <= i < |s| - 1 ==> s[i] == t[i];
    }
  }

  /** `trim` leaves text that neither starts nor ends with a trim character,
      changes nothing when the ends are already clean, and leaves nothing of
      text made only of trim characters. */
  lemma TrimStripsEnds(s: string)
    ensures |Trim(s)| <= |s|
    ensures Trim(s) == [] || (!IsTrimChar(Trim(s)[0]) && !IsTrimChar(Trim(s)[|Trim(s)| - 1]))
    ensures s == [] || (!IsTrimChar(s[0]) && !IsTrimChar(s[|s| - 1])) ==> Trim(s) == s
    ensures (forall i :: 0 <= i < |s| ==> IsTrimChar(s[i])) ==> Trim(s) == []
  {
    var l := TrimLeft(s);
    TrimLeftKeepsSuffix(s);
    TrimRightKeepsPrefix(l);
    var r := TrimRight(l);
    if r != [] {
      assert r[0] == l[0];
    }
    if forall i :: 0 <= i < |s| ==> IsTrimChar(s[i]) {
      if l != [] {
        assert l[0] == s[|s| - |l|];
      }
    }
  }

  predicate IsDigit(c: char) { '0' <= c <= '9' }

  predicate AllDigits(s: string) { forall i :: 0 <= i < |s| ==> IsDigit(s[i]) }

  function DigitValue(c: char): nat
    requires IsDigit(c)
  {
    c as int - '0' as int
  }

  function DigitChar(d: nat): (c: char)
    requires d < 10
    ensures IsDigit(c) && DigitValue(c) == d
  {
    ('0' as int + d) as char
  }

  /** The decimal text PHP prints for a non-negative integer. */
  function DecimalText(n: nat): (r: string)
    ensures r != [] && AllDigits(r)
    decreases n
  {
    if n < 10 then [DigitChar(n)] else DecimalText(n / 10) + [DigitChar(n % 10)]
  }

  /** The value of a string of decimal digits, most significant first. */
  function DigitsValue(s: string): nat
    requires AllDigits(s)
    decreases |s|
  {
    if s == [] then 0 else DigitsValue(s[..|s| - 1]) * 10 + DigitValue(s[|s| - 1])
  }

  lemma {:induction false} DigitsValueOfDecimal(n: nat)
    ensures DigitsValue(DecimalText(n)) == n
    decreases n
  {
    if n >= 10 {
      DigitsValueOfDecimal(n / 10);
      var t := DecimalText(n);
      assert t[..|t| - 1] == DecimalText(n / 10);
    }
  }

  /** The string PHP converts an integer to. */
  function IntText(i: int): string {
    if i < 0 then "-" + DecimalText(-i) else DecimalText(i)
  }

  /** `is_numeric` on a string, restricted to integer notation: an optional
      sign followed by at least one digit. */
  predicate IsNumericText(s: string)
    ensures IsNumericText(s) ==> s != [] && IsDigit(s[|s| - 1])
    ensures IsNumericText(s) ==> forall i :: 1 <= i < |s| ==> IsDigit(s[i])
    ensures IsNumericText(s) && !IsDigit(s[0]) ==> s[0] == '-' || s[0] == '+'
  {
    || (s != [] && AllDigits(s))
    || (|s| > 1 && (s[0] == '-' || s[0] == '+') && AllDigits(s[1..]))
  }

  /** The integer `(int) $s` gives for a string in integer notation. */
  function NumericValue(s: string): int
    requires IsNumericText(s)
  {
    if AllDigits(s) then DigitsValue(s) as int
    else if s[0] == '-' then -(DigitsValue(s[1..]) as int)
    else DigitsValue(s[1..]) as int
  }

  /** Printing an integer and reading it back as a numeric string gives the
      same integer. */
  lemma IntTextRoundTrip(i: int)
    ensures IsNumericText(IntText(i)) && NumericValue(IntText(i)) == i
  {
    var t := IntText(i);
    if i < 0 {
      DigitsValueOfDecimal(-i);
      assert t[1..] == DecimalText(-i);
      assert t[0] == '-' && !IsDigit(t[0]);
    } else {
      DigitsValueOfDecimal(i);
    }
  }
}
