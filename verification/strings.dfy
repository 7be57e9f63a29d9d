/**
 * The string operations the client relies on, written out over `seq<char>`:
 * `String.prototype.includes`, `trim`, `split` on one character, `Array.prototype.join`,
 * and `String(n)` for integer-valued numbers.
 */
module Strings {

  datatype Option<+T> = None | Some(value: T)

  /** `p` occurs in `s` starting at index `i`. */
  predicate StartsAt(s: string, p: string, i: nat) {
    i + |p| <= |s| && s[i..i + |p|] == p
  }

  /** `s.includes(p)`. */
  predicate Contains(s: string, p: string) {
    exists i :: 0 <= i <= |s| - |p| && StartsAt(s, p, i)
  }

  /** If a longer text occurs at `i`, so does each of its prefixes. */
  lemma PrefixOccurs(s: string, p: string, q: string, i: nat)
    requires StartsAt(s, p, i)
    requires |q| <= |p| && p[..|q|] == q
    ensures StartsAt(s, q, i)
    ensures Contains(s, q)
  {
    assert s[i..i + |q|] == s[i..i + |p|][..|q|];
  }

  // ---------------------------------------------------------------------------
  // Whitespace and trim
  // ---------------------------------------------------------------------------

  /**
   * The code points ECMAScript's `trim` removes: WhiteSpace (TAB, VT, FF, SP, NBSP,
   * ZWNBSP and the Space_Separator category) and LineTerminator (LF, CR, LS, PS).
   */
  predicate IsSpace(c: char) {
    || c == '\t' || c == '\n' || c == '\U{000B}' || c == '\U{000C}' || c == '\r'
    || c == ' ' || c == '\U{00A0}' || c == '\U{1680}'
    || ('\U{2000}' <= c <= '\U{200A}')
    || c == '\U{2028}' || c == '\U{2029}' || c == '\U{202F}' || c == '\U{205F}'
    || c == '\U{3000}' || c == '\U{FEFF}'
  }

  /** Every character of `s` is whitespace (the empty string included). */
  predicate IsBlank(s: string) {
    forall k :: 0 <= k < |s| ==> IsSpace(s[k])
  }

  /** Neither end of `s` is whitespace. */
  predicate Trimmed(s: string) {
    |s| == 0 || (!IsSpace(s[0]) && !IsSpace(s[|s| - 1]))
  }

  /** Drops trailing whitespace. */
  function TrimEnd(s: string): (r: string)
    ensures |r| <= |s| && r == s[..|r|]
    ensures IsBlank(s[|r|..])
    ensures |r| == 0 || !IsSpace(r[|r| - 1])
  {
    if |s| > 0 && IsSpace(s[|s| - 1]) then TrimEnd(s[..|s| - 1]) else s
  }

  /**
   * `s.trim()`: a trimmed string, empty exactly when `s` is blank, and `s`
   * itself when `s` is already trimmed.  `TrimOffset` shows it is `s` with a
   * blank head and a blank tail cut off, and `TrimUnique` that no other
   * trimmed piece of `s` is.
   */
  function Trim(s: string): (r: string)
    ensures Trimmed(r)
    ensures r == [] <==> IsBlank(s)
    ensures Trimmed(s) ==> r == s
    decreases |s|
  {
    if |s| > 0 && IsSpace(s[0]) then
      BlankTail(s);
      Trim(s[1..])
    else
      TrimEnd(s)
  }

  /** A string whose first character is whitespace is blank exactly when its tail is. */
  lemma BlankTail(s: string)
    requires |s| > 0 && IsSpace(s[0])
    ensures IsBlank(s) <==> IsBlank(s[1..])
  {
    if IsBlank(s[1..]) {
      forall k | 0 <= k < |s| ensures IsSpace(s[k]) {
        if k > 0 { assert s[k] == s[1..][k - 1]; }
      }
    }
  }

  /** What `trim` keeps is a contiguous piece of the original, so it holds no character the original lacks. */
  lemma TrimInfix(s: string)
    ensures Contains(s, Trim(s))
    ensures forall c :: c in Trim(s) ==> c in s
  {
    var i := TrimOffset(s);
    InfixChars(s, Trim(s), i);
  }

  /** Where in `s` the trimmed text starts: only whitespace lies before it and after it. */
  lemma {:induction false} TrimOffset(s: string) returns (i: nat)
    ensures StartsAt(s, Trim(s), i)
    ensures IsBlank(s[..i]) && IsBlank(s[i + |Trim(s)|..])
    decreases |s|
  {
    if |s| > 0 && IsSpace(s[0]) {
      var j := TrimOffset(s[1..]);
      var t := Trim(s);
      assert t == Trim(s[1..]);
      StartsAtTail(s, t, j);
      i := j + 1;
      forall k | 0 <= k < i ensures IsSpace(s[..i][k]) {
        if k > 0 { assert s[..i][k] == s[1..][..j][k - 1]; }
      }
      assert s[i + |t|..] == s[1..][j + |t|..];
    } else {
      i := 0;
      assert s[..0] == [];
    }
  }

  /**
   * A non-empty trimmed text padded with whitespace on both sides trims to
   * itself: the cut `trim` makes is the only one that leaves a trimmed middle.
   */
  lemma TrimUnique(a: string, r: string, b: string)
    requires IsBlank(a) && IsBlank(b) && Trimmed(r) && r != []
    ensures Trim(a + r + b) == r
  {
    var s := a + r + b;
    assert s[|a|] == r[0] && s[|a| + |r| - 1] == r[|r| - 1];
    var i := TrimOffset(s);
    var t := Trim(s);
    assert !IsBlank(s) by { assert !IsSpace(s[|a|]); }
    assert t[0] == s[i] && t[|t| - 1] == s[i + |t| - 1];
    assert s[|a|..|a| + |r|] == r;
  }

  /** An occurrence in the tail of `s` is an occurrence in `s`, one place later. */
  lemma StartsAtTail(s: string, p: string, j: nat)
    requires |s| > 0 && StartsAt(s[1..], p, j)
    ensures StartsAt(s, p, j + 1)
  {
    assert s[j + 1..j + 1 + |p|] == s[1..][j..j + |p|];
  }

  /** Text occurring in `s` is contained in `s`, character by character. */
  lemma InfixChars(s: string, p: string, i: nat)
    requires StartsAt(s, p, i)
    ensures Contains(s, p)
    ensures forall c :: c in p ==> c in s
  {
    forall c | c in p ensures c in s {
      var k :| 0 <= k < |p| && p[k] == c;
      assert s[i + k] == p[k];
    }
  }

  // ---------------------------------------------------------------------------
  // Split and join on one separator character
  // ---------------------------------------------------------------------------

  /** `parts.join(sep)` with a one-character separator; the empty list joins to "". */
  function Join(parts: seq<string>, sep: char): string {
    if |parts| == 0 then ""
    else if |parts| == 1 then parts[0]
    else parts[0] + [sep] + Join(parts[1..], sep)
  }

  /**
   * `s.split(sep)`: the pieces between separators, always at least one
   * (`"".split(",")` is `[""]`), none holding the separator, and joining back to `s`.
   */
  function Split(s: string, sep: char): (parts: seq<string>)
    ensures |parts| >= 1
    ensures forall i :: 0 <= i < |parts| ==> sep !in parts[i]
    ensures Join(parts, sep) == s
  {
    if |s| == 0 then [""]
    else if s[0] == sep then
      var rest := Split(s[1..], sep);
      assert s == [sep] + s[1..];
      [""] + rest
    else
      var rest := Split(s[1..], sep);
      var parts := [[s[0]] + rest[0]] + rest[1..];
      assert parts[1..] == rest[1..];
      assert s == [s[0]] + s[1..];
      parts
  }

  /** Splitting a join of separator-free pieces gives the pieces back. */
  lemma {:induction false} SplitJoin(parts: seq<string>, sep: char)
    requires |parts| >= 1
    requires forall i :: 0 <= i < |parts| ==> sep !in parts[i]
    ensures Split(Join(parts, sep), sep) == parts
  {
    if |parts| == 1 {
      SplitPiece(parts[0], sep);
    } else {
      SplitJoin(parts[1..], sep);
      SplitPrepend(parts[0], Join(parts[1..], sep), sep);
      assert [parts[0]] + parts[1..] == parts;
    }
  }

  /** Joining two non-empty lists puts one separator between their joins. */
  lemma {:induction false} JoinAppend(x: seq<string>, y: seq<string>, sep: char)
    requires |x| >= 1 && |y| >= 1
    ensures Join(x + y, sep) == Join(x, sep) + [sep] + Join(y, sep)
    decreases |x|
  {
    if |x| > 1 {
      assert (x + y)[1..] == x[1..] + y;
      JoinAppend(x[1..], y, sep);
    } else {
      assert (x + y)[1..] == y;
    }
  }

  /** Splitting two texts glued by a separator gives the pieces of the first, then those of the second. */
  lemma SplitAppend(a: string, b: string, sep: char)
    ensures Split(a + [sep] + b, sep) == Split(a, sep) + Split(b, sep)
  {
    var x, y := Split(a, sep), Split(b, sep);
    JoinAppend(x, y, sep);
    SplitJoin(x + y, sep);
  }

  /** A separator-free string splits into itself. */
  lemma {:induction false} SplitPiece(p: string, sep: char)
    requires sep !in p
    ensures Split(p, sep) == [p]
  {
    if |p| > 0 {
      SplitPiece(p[1..], sep);
      assert [p[0]] + p[1..] == p;
    }
  }

  /** Splitting `p + [sep] + t` puts `p` in front of the pieces of `t`. */
  lemma {:induction false} SplitPrepend(p: string, t: string, sep: char)
    requires sep !in p
    ensures Split(p + [sep] + t, sep) == [p] + Split(t, sep)
  {
    var s := p + [sep] + t;
    if |p| == 0 {
      assert s == [sep] + t;
      assert s[1..] == t;
    } else {
      assert s[0] == p[0] && s[1..] == p[1..] + [sep] + t;
      SplitPrepend(p[1..], t, sep);
      var rest := Split(s[1..], sep);
      assert rest[0] == p[1..] && rest[1..] == Split(t, sep);
      assert [p[0]] + p[1..] == p;
    }
  }

  // ---------------------------------------------------------------------------
  // Decimal rendering of integers
  // ---------------------------------------------------------------------------

  function DigitChar(d: nat): (c: char)
    requires d < 10
    ensures '0' <= c <= '9' && c as int == '0' as int + d
  {
    ['0', '1', '2', '3', '4', '5', '6', '7', '8', '9'][d]
  }

  function DigitValue(c: char): (d: nat)
    requires '0' <= c <= '9'
    ensures d < 10 && DigitChar(d) == c
  {
    c as int - '0' as int
  }

  predicate IsDigits(s: string) {
    forall k :: 0 <= k < |s| ==> '0' <= s[k] <= '9'
  }

  /** Decimal digits of `n`, most significant first, without leading zeros. */
  function NatToString(n: nat): (r: string)
    ensures |r| >= 1 && IsDigits(r)
    ensures n >= 10 <==> |r| >= 2
    ensures r[0] == '0' <==> n == 0
  {
    if n < 10 then [DigitChar(n)] else NatToString(n / 10) + [DigitChar(n % 10)]
  }

  /** `String(n)` for an integer-valued number. */
  function IntToString(n: int): string {
    if n < 0 then "-" + NatToString(-n) else NatToString(n)
  }

  /** Reads decimal digits back into a number. */
  function ParseDigits(s: string): nat
    requires IsDigits(s)
  {
    if |s| == 0 then 0 else 10 * ParseDigits(s[..|s| - 1]) + DigitValue(s[|s| - 1])
  }

  /** Reads an optional minus sign followed by digits. */
  function ParseInt(s: string): Option<int> {
    if |s| >= 2 && s[0] == '-' && IsDigits(s[1..]) then Some(-(ParseDigits(s[1..]) as int))
    else if |s| >= 1 && IsDigits(s) then Some(ParseDigits(s))
    else None
  }

  lemma {:induction false} NatToStringRoundTrip(n: nat)
    ensures ParseDigits(NatToString(n)) == n
  {
    if n >= 10 {
      var q, d := n / 10, n % 10;
      NatToStringRoundTrip(q);
      var s := NatToString(n);
      assert s == NatToString(q) + [DigitChar(d)];
      assert s[..|s| - 1] == NatToString(q) && s[|s| - 1] == DigitChar(d);
      assert ParseDigits(s) == 10 * q + d;
    }
  }

  /** Rendering an integer and reading it back gives the same integer. */
  lemma IntToStringRoundTrip(n: int)
    ensures ParseInt(IntToString(n)) == Some(n)
  {
    if n < 0 {
      NegativeRoundTrip(-n, IntToString(n));
    } else {
      var digits := NatToString(n);
      NatToStringRoundTrip(n);
      assert digits[0] != '-';
    }
  }

  lemma NegativeRoundTrip(m: nat, s: string)
    requires m > 0 && s == "-" + NatToString(m)
    ensures ParseInt(s) == Some(-(m as int))
  {
    var digits := NatToString(m);
    NatToStringRoundTrip(m);
    assert s[1..] == digits;
    assert |s| >= 2 && s[0] == '-' && IsDigits(s[1..]);
  }

  /** Only -1 renders as "-1". */
  lemma IntToStringMinusOne(n: int)
    ensures IntToString(n) == "-1" <==> n == -1
  {
    IntToStringRoundTrip(n);
    IntToStringRoundTrip(-1);
    assert "-1"[1..] == "1";
  }
}
