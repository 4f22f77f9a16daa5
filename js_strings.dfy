/** The JavaScript string operations the frontend relies on, over `seq<char>`:
    `trim`, `toLowerCase`, `includes`, `startsWith`/`endsWith`, `indexOf`,
    `split` on a one-character separator, `replace(/\/+$/, "")` and
    `parseInt(s, 10)`. */
module JsStrings {
  import opened Wrappers

  /** The code points JavaScript's `trim` removes and its regular-expression
      class `\s` matches: WhiteSpace and LineTerminator. */
  predicate IsSpace(c: char) {
    c == ' ' || c == '\t' || c == '\n' || c == '\r' || c == '\U{000B}' || c == '\U{000C}'
    || c == '\U{00A0}' || c == '\U{FEFF}' || c == '\U{1680}' || ('\U{2000}' <= c <= '\U{200A}')
    || c == '\U{2028}' || c == '\U{2029}' || c == '\U{202F}' || c == '\U{205F}' || c == '\U{3000}'
  }

  predicate Blank(s: string) {
    forall i :: 0 <= i < |s| ==> IsSpace(s[i])
  }

  /** `String.prototype.trimStart`. */
  function TrimStart(s: string): (r: string)
    ensures |r| <= |s| && r == s[|s| - |r|..]
    ensures r != [] ==> !IsSpace(r[0])
    ensures Blank(s[..|s| - |r|])
  {
    if s != [] && IsSpace(s[0]) then TrimStart(s[1..]) else s
  }

  /** `String.prototype.trimEnd`. */
  function TrimEnd(s: string): (r: string)
    ensures |r| <= |s| && r == s[..|r|]
    ensures r != [] ==> !IsSpace(r[|r| - 1])
    ensures Blank(s[|r|..])
  {
    if s != [] && IsSpace(s[|s| - 1]) then TrimEnd(s[..|s| - 1]) else s
  }

  /** `String.prototype.trim`. */
  function Trim(s: string): string {
    TrimEnd(TrimStart(s))
  }

  lemma TrimEndKeepsFirst(s: string)
    requires s != [] && !IsSpace(s[0])
    ensures TrimEnd(s) != [] && TrimEnd(s)[0] == s[0]
  {
  }

  /** A trimmed string has no white space at either end. */
  lemma TrimEdges(s: string)
    ensures Trim(s) != [] ==> !IsSpace(Trim(s)[0]) && !IsSpace(Trim(s)[|Trim(s)| - 1])
  {
    if TrimStart(s) != [] { TrimEndKeepsFirst(TrimStart(s)); }
  }

  /** Trimming leaves a string alone exactly when its ends are not white space. */
  lemma TrimNoop(s: string)
    requires s == [] || (!IsSpace(s[0]) && !IsSpace(s[|s| - 1]))
    ensures Trim(s) == s
  {
  }

  /** `trim` is idempotent. */
  lemma TrimIdempotent(s: string)
    ensures Trim(Trim(s)) == Trim(s)
  {
    TrimEdges(s);
    TrimNoop(Trim(s));
  }

  /** `s.trim()` is falsy (empty) exactly when `s` is all white space. */
  lemma {:induction false} TrimEmptyIffBlank(s: string)
    ensures Trim(s) == [] <==> Blank(s)
  {
    var t := TrimStart(s);
    if t == [] {
      assert s[..|s|] == s;
    } else {
      TrimEndKeepsFirst(t);
      assert s[|s| - |t|] == t[0];
    }
  }

  /** A string that is not all white space keeps its non-white-space
      characters: one of them survives trimming at its own position. */
  lemma TrimNonBlankNonEmpty(s: string, i: nat)
    requires i < |s| && !IsSpace(s[i])
    ensures Trim(s) != []
  {
    TrimEmptyIffBlank(s);
  }

  function LowerChar(c: char): char {
    if 'A' <= c <= 'Z' then (c as int + 32) as char else c
  }

  /** `String.prototype.toLowerCase`, on the ASCII letters. */
  function ToLower(s: string): (r: string)
    ensures |r| == |s|
    ensures forall i :: 0 <= i < |s| ==> r[i] == LowerChar(s[i])
  {
    seq(|s|, i requires 0 <= i < |s| => LowerChar(s[i]))
  }

  /** Lower-casing never turns white space into anything else, or back. */
  lemma LowerCharSpace(c: char)
    ensures IsSpace(LowerChar(c)) == IsSpace(c)
  {
  }

  lemma {:induction false} TrimStartLower(s: string)
    ensures TrimStart(ToLower(s)) == ToLower(TrimStart(s))
    decreases |s|
  {
    if s != [] {
      LowerCharSpace(s[0]);
      assert ToLower(s)[1..] == ToLower(s[1..]);
      if IsSpace(s[0]) { TrimStartLower(s[1..]); }
    }
  }

  lemma {:induction false} TrimEndLower(s: string)
    ensures TrimEnd(ToLower(s)) == ToLower(TrimEnd(s))
    decreases |s|
  {
    if s != [] {
      LowerCharSpace(s[|s| - 1]);
      assert ToLower(s)[..|s| - 1] == ToLower(s[..|s| - 1]);
      if IsSpace(s[|s| - 1]) { TrimEndLower(s[..|s| - 1]); }
    }
  }

  /** `s.toLowerCase().trim() == s.trim().toLowerCase()`. */
  lemma TrimLowerCommute(s: string)
    ensures Trim(ToLower(s)) == ToLower(Trim(s))
  {
    TrimStartLower(s);
    TrimEndLower(TrimStart(s));
  }

  lemma ToLowerIdempotent(s: string)
    ensures ToLower(ToLower(s)) == ToLower(s)
  {
  }

  predicate StartsWith(s: string, prefix: string) {
    |prefix| <= |s| && s[..|prefix|] == prefix
  }

  predicate EndsWith(s: string, suffix: string) {
    |suffix| <= |s| && s[|s| - |suffix|..] == suffix
  }

  /** `s.includes(q)`: `q` occurs somewhere in `s`. */
  predicate Includes(s: string, q: string)
    decreases |s|
  {
    StartsWith(s, q) || (s != [] && Includes(s[1..], q))
  }

  /** The characterisation of `Includes` by a position. */
  lemma {:induction false} IncludesAt(s: string, q: string, k: nat)
    requires k + |q| <= |s| && s[k..k + |q|] == q
    ensures Includes(s, q)
    decreases k
  {
    if k > 0 {
      assert s[1..][k - 1..k - 1 + |q|] == q;
      IncludesAt(s[1..], q, k - 1);
    }
  }

  /** Every character of a string that `s` includes occurs in `s`. */
  lemma {:induction false} IncludesChar(s: string, q: string, c: char)
    requires Includes(s, q) && c in q
    ensures c in s
    decreases |s|
  {
    if StartsWith(s, q) {
      var i :| 0 <= i < |q| && q[i] == c;
      assert s[i] == c;
    } else {
      IncludesChar(s[1..], q, c);
    }
  }

  lemma IncludesEmpty(s: string)
    ensures Includes(s, "")
  {
    assert StartsWith(s, "");
  }

  /** The first position of `c` in `s` (`s.indexOf(c)`, with `None` for -1). */
  function IndexOf(s: string, c: char): (r: Option<nat>)
    ensures r.None? <==> c !in s
    ensures r.Some? ==> r.value < |s| && s[r.value] == c && forall k :: 0 <= k < r.value ==> s[k] != c
  {
    if s == [] then None
    else if s[0] == c then Some(0)
    else match IndexOf(s[1..], c)
      case None => None
      case Some(i) => Some(i + 1)
  }

  /** `indexOf` finds the first occurrence. */
  lemma IndexOfFirst(s: string, c: char, i: nat)
    requires i < |s| && s[i] == c && forall k :: 0 <= k < i ==> s[k] != c
    ensures IndexOf(s, c) == Some(i)
  {
  }

  lemma IndexOfAfterPrefix(a: string, c: char, b: string)
    requires c !in a
    ensures IndexOf(a + [c] + b, c) == Some(|a|)
  {
    var s := a + [c] + b;
    assert s[|a|] == c && s[..|a|] == a;
  }

  /** `s.split(c)` for a one-character separator: the pieces between the
      occurrences of `c`, always at least one. */
  function Split(s: string, c: char): (parts: seq<string>)
    ensures |parts| >= 1
    ensures c !in s ==> parts == [s]
    decreases |s|
  {
    match IndexOf(s, c)
    case None => [s]
    case Some(i) => [s[..i]] + Split(s[i + 1..], c)
  }

  /** The last piece of `s.split(c)`, i.e. `s.split(c).pop()`: what
      follows the last `c`, or all of `s`. */
  function LastPiece(s: string, c: char): (r: string)
    ensures c !in r
    ensures EndsWith(s, r)
    ensures |r| == |s| || s[|s| - |r| - 1] == c
    ensures c !in s ==> r == s
    decreases |s|
  {
    match IndexOf(s, c)
    case None => s
    case Some(i) =>
      var r := LastPiece(s[i + 1..], c);
      SuffixAfterSeparator(s, c, i, r);
      r
  }

  /** A suffix of what follows a separator, itself whole or preceded by the
      separator, is a suffix of the string preceded by the separator. */
  lemma SuffixAfterSeparator(s: string, c: char, i: nat, r: string)
    requires i < |s| && s[i] == c
    requires EndsWith(s[i + 1..], r) && (|r| == |s| - i - 1 || s[|s| - |r| - 1] == c)
    ensures EndsWith(s, r) && s[|s| - |r| - 1] == c
  {
    EndsWithTrans(s, s[i + 1..], r);
  }

  /** The last piece is what follows the last separator. */
  lemma LastPieceAfterSeparator(a: string, c: char, b: string)
    requires c !in b
    ensures LastPiece(a + [c] + b, c) == b
  {
    var s := a + [c] + b;
    var r := LastPiece(s, c);
    assert s[|a|] == c;
    assert s[|s| - |b|..] == b;
  }

  lemma EndsWithTrans(s: string, t: string, u: string)
    requires EndsWith(s, t) && EndsWith(t, u)
    ensures EndsWith(s, u)
  {
    assert s[|s| - |u|..] == s[|s| - |t|..][|t| - |u|..];
  }

  /** `s.replace(/c+$/, "")`: drops every trailing `c`. */
  function StripTrailing(s: string, c: char): (r: string)
    ensures StartsWith(s, r)
    ensures r == [] || r[|r| - 1] != c
    ensures forall i :: |r| <= i < |s| ==> s[i] == c
  {
    if s != [] && s[|s| - 1] == c then StripTrailing(s[..|s| - 1], c) else s
  }

  // ---- parseInt(s, 10) ----

  predicate IsDigit(c: char) {
    '0' <= c <= '9'
  }

  predicate AllDigits(s: string) {
    forall i :: 0 <= i < |s| ==> IsDigit(s[i])
  }

  /** The longest prefix of `s` made of decimal digits. */
  function DigitPrefix(s: string): (d: string)
    ensures StartsWith(s, d) && AllDigits(d)
    ensures |d| < |s| ==> !IsDigit(s[|d|])
  {
    if s != [] && IsDigit(s[0]) then [s[0]] + DigitPrefix(s[1..]) else []
  }

  /** The value of a string of decimal digits. */
  function DigitsValue(d: string): nat
    requires AllDigits(d)
  {
    if d == [] then 0 else DigitsValue(d[..|d| - 1]) * 10 + (d[|d| - 1] as int - '0' as int)
  }

  /** `parseInt(s, 10)`: skip leading white space, take an optional sign,
      then the longest run of decimal digits; `None` (NaN) when there is none. */
  function ParseInt(s: string): (r: Option<int>)
    ensures r.None? <==> DigitPrefix(UnsignedPart(s)) == []
  {
    var t := TrimStart(s);
    var d := DigitPrefix(UnsignedPart(s));
    var v: int := DigitsValue(d);
    if d == [] then None
    else if t != [] && t[0] == '-' then Some(-v)
    else Some(v)
  }

  /** What `parseInt` reads digits from: the input after leading white space
      and one optional sign. */
  function UnsignedPart(s: string): string {
    var t := TrimStart(s);
    if t != [] && (t[0] == '-' || t[0] == '+') then t[1..] else t
  }

  /** A run of digits parses to its value. */
  lemma ParseDigits(d: string)
    requires d != [] && AllDigits(d)
    ensures ParseInt(d) == Some(DigitsValue(d))
  {
    assert IsDigit(d[0]);
    assert !IsSpace(d[0]);
    assert TrimStart(d) == d;
    assert UnsignedPart(d) == d;
    DigitPrefixOfDigits(d);
    assert DigitPrefix(UnsignedPart(d)) == d;
  }

  lemma {:induction false} DigitPrefixOfDigits(d: string)
    requires AllDigits(d)
    ensures DigitPrefix(d) == d
  {
    if d != [] { DigitPrefixOfDigits(d[1..]); }
  }

  /** `parseInt` stops at the first character that is not a digit. */
  lemma {:induction false} DigitPrefixStops(d: string, rest: string)
    requires AllDigits(d) && (rest == [] || !IsDigit(rest[0]))
    ensures DigitPrefix(d + rest) == d
  {
    if d != [] {
      assert (d + rest)[1..] == d[1..] + rest;
      DigitPrefixStops(d[1..], rest);
    }
  }

  /** A string without any digit is NaN to `parseInt`. */
  lemma NoDigitsNaN(s: string)
    requires forall i :: 0 <= i < |s| ==> !IsDigit(s[i])
    ensures ParseInt(s) == None
  {
    var t := TrimStart(s);
    var u := UnsignedPart(s);
    assert EndsWith(s, u) by {
      assert t == s[|s| - |t|..];
      if t != [] && (t[0] == '-' || t[0] == '+') { assert u == s[|s| - |u|..]; }
    }
    if u != [] { assert u[0] == s[|s| - |u|]; }
  }
}
