/**
 * The few pieces of Python's string semantics that the approval workflow
 * depends on: `str.startswith`, `str.split(sep)` (and its `[-1]`), `str(int)`,
 * `int(str)` as used on the request-timestamp header, `str.title()`, and the
 * ASCII restriction of `hmac.compare_digest` on strings.
 */
module Text {
  import opened Wrappers

  predicate IsDigit(c: char) { '0' <= c <= '9' }

  predicate IsAsciiLetter(c: char) { 'a' <= c <= 'z' || 'A' <= c <= 'Z' }

  predicate IsAscii(s: string) { forall i :: 0 <= i < |s| ==> s[i] as int < 128 }

  predicate AllDigits(s: string) { forall i :: 0 <= i < |s| ==> IsDigit(s[i]) }

  /** Python's `s.startswith(prefix)`. */
  predicate StartsWith(s: string, prefix: string) {
    |prefix| <= |s| && s[..|prefix|] == prefix
  }

  // ---------------------------------------------------------------------------
  // str.split(sep) with a one-character separator, and its inverse sep.join

  /** Python's `sep.join(parts)`. */
  function Join(parts: seq<string>, sep: char): string {
    if |parts| == 0 then ""
    else if |parts| == 1 then parts[0]
    else parts[0] + [sep] + Join(parts[1..], sep)
  }

  /** Position of the first occurrence of `c` in `s`. */
  function IndexOf(s: string, c: char): (i: nat)
    requires c in s
    ensures i < |s| && s[i] == c && c !in s[..i]
  {
    if s[0] == c then 0 else 1 + IndexOf(s[1..], c)
  }

  /**
   * Python's `s.split(sep)`: never empty. `SplitPiecesFree` shows that no
   * piece contains the separator, `JoinSplit` that joining the pieces gives
   * back `s`.
   */
  function Split(s: string, sep: char): (parts: seq<string>)
    ensures |parts| >= 1
    decreases |s|
  {
    if sep !in s then [s]
    else
      var i := IndexOf(s, sep);
      [s[..i]] + Split(s[i + 1..], sep)
  }

  /** No piece of a split contains the separator. */
  lemma {:induction false} SplitPiecesFree(s: string, sep: char)
    ensures forall k :: 0 <= k < |Split(s, sep)| ==> sep !in Split(s, sep)[k]
    decreases |s|
  {
    if sep in s {
      var i := IndexOf(s, sep);
      var rest := Split(s[i + 1..], sep);
      SplitPiecesFree(s[i + 1..], sep);
      var parts := Split(s, sep);
      SplitStep(s, sep);
      forall k | 0 <= k < |parts| ensures sep !in parts[k] {
        if k == 0 {
          assert parts[0] == s[..i];
        } else {
          assert parts[k] == rest[k - 1];
          assert sep !in rest[k - 1];
        }
      }
    } else {
      assert Split(s, sep) == [s];
    }
  }

  /** Joining the pieces of a split with the separator gives back the string. */
  lemma {:induction false} JoinSplit(s: string, sep: char)
    ensures Join(Split(s, sep), sep) == s
    decreases |s|
  {
    if sep in s {
      var i := IndexOf(s, sep);
      var rest := Split(s[i + 1..], sep);
      JoinSplit(s[i + 1..], sep);
      SplitStep(s, sep);
      assert ([s[..i]] + rest)[1..] == rest;
      assert s == s[..i] + [sep] + s[i + 1..];
    }
  }

  /**
   * Python's `s.split("_")[-1]`: the longest suffix of `s` without an
   * underscore (an underscore precedes it unless it is all of `s`).
   */
  function LastSegment(s: string): string {
    var parts := Split(s, '_');
    parts[|parts| - 1]
  }

  /** The last segment holds no underscore, ends `s`, and is preceded by an underscore unless it is all of `s`. */
  lemma LastSegmentIsSuffix(s: string)
    ensures var r := LastSegment(s);
            && '_' !in r
            && |r| <= |s| && r == s[|s| - |r|..]
            && (|r| < |s| ==> s[|s| - |r| - 1] == '_')
  {
    var k := LastPieceStart(s, '_');
    SplitLastIsSuffix(s, '_');
    LastPieceStartAfterSep(s, '_');
    SplitPiecesFree(s, '_');
    assert |LastSegment(s)| == |s| - k;
  }

  /** Where the last piece of `Split(s, sep)` starts: just past the last separator, or 0. */
  function LastPieceStart(s: string, sep: char): (k: nat)
    ensures k <= |s|
    decreases |s|
  {
    if sep !in s then 0
    else
      var i := IndexOf(s, sep);
      i + 1 + LastPieceStart(s[i + 1..], sep)
  }

  /** Unless the last piece is all of `s`, the separator comes right before it. */
  lemma {:induction false} LastPieceStartAfterSep(s: string, sep: char)
    ensures var k := LastPieceStart(s, sep); k > 0 ==> s[k - 1] == sep
    decreases |s|
  {
    if sep in s {
      var i := IndexOf(s, sep);
      var k' := LastPieceStart(s[i + 1..], sep);
      LastPieceStartAfterSep(s[i + 1..], sep);
      if k' > 0 {
        DropOfDrop(s, i + 1, k');
      }
    }
  }

  /** The last piece of a split is the suffix of `s` from `LastPieceStart`. */
  lemma {:induction false} SplitLastIsSuffix(s: string, sep: char)
    ensures LastPiece(Split(s, sep)) == s[LastPieceStart(s, sep)..]
    decreases |s|
  {
    if sep !in s {
      assert s[0..] == s;
      assert Split(s, sep) == [s];
    } else {
      var i := IndexOf(s, sep);
      var k' := LastPieceStart(s[i + 1..], sep);
      SplitLastIsSuffix(s[i + 1..], sep);
      SplitStep(s, sep);
      LastPieceOfCons(s[..i], Split(s[i + 1..], sep));
      DropOfDrop(s, i + 1, k');
    }
  }

  /** The last element of a non-empty sequence of pieces. */
  function LastPiece(p: seq<string>): string
    requires |p| >= 1
  {
    p[|p| - 1]
  }

  /** Splitting at the first separator: the piece before it, then the pieces of the rest. */
  lemma SplitStep(s: string, sep: char)
    requires sep in s
    ensures Split(s, sep) == [s[..IndexOf(s, sep)]] + Split(s[IndexOf(s, sep) + 1..], sep)
  {
  }

  /** Putting a piece in front does not change the last piece. */
  lemma LastPieceOfCons(x: string, q: seq<string>)
    requires |q| >= 1
    ensures LastPiece([x] + q) == LastPiece(q)
  {
  }

  /** Dropping `k'` elements after dropping `j` drops `j + k'`; the element before is the same too. */
  lemma DropOfDrop(s: string, j: nat, k': nat)
    requires 0 < j <= |s| && k' <= |s| - j
    ensures s[j..][k'..] == s[j + k'..]
    ensures k' > 0 ==> s[j..][k' - 1] == s[j + k' - 1]
  {
  }

  /** Splitting a prefix free of the separator, the separator and a rest. */
  lemma SplitAfterPiece(a: string, sep: char, b: string)
    requires sep !in a
    ensures Split(a + [sep] + b, sep) == [a] + Split(b, sep)
  {
    var s := a + [sep] + b;
    assert s[|a|] == sep;
    assert s[..|a|] == a;
    IndexOfUnique(s, sep, |a|);
    assert s[|a| + 1..] == b;
  }

  /** Splitting the joined pieces gives the pieces back when none holds the separator. */
  lemma {:induction false} SplitJoin(parts: seq<string>, sep: char)
    requires |parts| >= 1
    requires forall k :: 0 <= k < |parts| ==> sep !in parts[k]
    ensures Split(Join(parts, sep), sep) == parts
  {
    if |parts| > 1 {
      var tail := parts[1..];
      var joinedTail := Join(tail, sep);
      assert Join(parts, sep) == parts[0] + [sep] + joinedTail;
      SplitJoin(tail, sep);
      SplitAfterPiece(parts[0], sep, joinedTail);
      assert parts == [parts[0]] + tail;
    }
  }

  /** The last piece of `x + sep + b` is the last piece of `b`. */
  lemma {:induction false} SplitLastAfterSep(x: string, sep: char, b: string)
    ensures var p := Split(x + [sep] + b, sep); var q := Split(b, sep);
            p[|p| - 1] == q[|q| - 1]
    decreases |x|
  {
    if sep !in x {
      SplitAfterPiece(x, sep, b);
    } else {
      var i := IndexOf(x, sep);
      SplitAtFirstOfPrefix(x, sep, b, i);
      SplitLastAfterSep(x[i + 1..], sep, b);
    }
  }

  /** The first separator inside `x` is the first separator of `x + [sep] + b`. */
  lemma SplitAtFirstOfPrefix(x: string, sep: char, b: string, i: nat)
    requires i < |x| && x[i] == sep && sep !in x[..i]
    ensures Split(x + [sep] + b, sep) == [x[..i]] + Split(x[i + 1..] + [sep] + b, sep)
  {
    var s := x + [sep] + b;
    assert s[..i] == x[..i];
    IndexOfUnique(s, sep, i);
    assert s[i + 1..] == x[i + 1..] + [sep] + b;
  }

  /** `IndexOf` is the first occurrence. */
  lemma {:induction false} IndexOfUnique(s: string, c: char, i: nat)
    requires i < |s| && s[i] == c && c !in s[..i]
    ensures IndexOf(s, c) == i
  {
    if s[0] != c {
      assert i > 0;
      assert s[1..][..i - 1] == s[..i][1..];
      IndexOfUnique(s[1..], c, i - 1);
    }
  }

  /**
   * The correlation round trip: whatever precedes the last separator, the last
   * underscore-separated segment of `x + "_" + b` is `b`, provided `b` holds
   * no underscore.
   */
  lemma LastSegmentAfterUnderscore(x: string, b: string)
    requires '_' !in b
    ensures LastSegment(x + "_" + b) == b
  {
    SplitLastAfterSep(x, '_', b);
    assert Split(b, '_') == [b];
    assert x + "_" + b == x + ['_'] + b;
  }

  // ---------------------------------------------------------------------------
  // str(int)

  function DigitChar(d: nat): (c: char)
    requires d < 10
    ensures IsDigit(c)
  {
    ('0' as int + d) as char
  }

  function DigitValue(c: char): (d: nat)
    requires IsDigit(c)
    ensures d < 10 && DigitChar(d) == c
  {
    c as int - '0' as int
  }

  /** Decimal digits of a natural number, no leading zeros. */
  function NatToString(n: nat): (s: string)
    ensures |s| >= 1 && AllDigits(s)
    ensures |s| > 1 ==> s[0] != '0'
  {
    if n < 10 then [DigitChar(n)] else NatToString(n / 10) + [DigitChar(n % 10)]
  }

  /** Python's `str(i)` for an `int`. */
  function IntToString(i: int): (s: string)
    ensures '_' !in s
  {
    if i < 0 then "-" + NatToString(-i) else NatToString(i)
  }

  // ---------------------------------------------------------------------------
  // int(str)

  /**
   * The white space `int()` skips around the number: ASCII space, tab, line
   * feed, vertical tab, form feed and carriage return, and the non-ASCII
   * characters `str.isspace` accepts (CPython maps those to a space first).
   * The ASCII separators U+001C..U+001F pass `str.isspace` but are not
   * skipped, so `int()` refuses them.
   */
  predicate IsSpace(c: char) {
    var k := c as int;
    (9 <= k <= 13) || k == 32 || k == 0x85 || k == 0xA0 || k == 0x1680 ||
    (0x2000 <= k <= 0x200A) || k == 0x2028 || k == 0x2029 || k == 0x202F ||
    k == 0x205F || k == 0x3000
  }

  function TrimLeft(s: string): (r: string)
    ensures |r| <= |s| && r == s[|s| - |r|..]
    ensures r == [] || !IsSpace(r[0])
  {
    if |s| > 0 && IsSpace(s[0]) then TrimLeft(s[1..]) else s
  }

  function TrimRight(s: string): (r: string)
    ensures |r| <= |s| && r == s[..|r|]
    ensures r == [] || !IsSpace(r[|r| - 1])
  {
    if |s| > 0 && IsSpace(s[|s| - 1]) then TrimRight(s[..|s| - 1]) else s
  }

  /** `int()`'s stripping of white space at both ends. */
  function Strip(s: string): string { TrimRight(TrimLeft(s)) }

  /**
   * The digit part Python's `int()` accepts in base 10: ASCII digits, with
   * single underscores allowed between two digits.
   */
  predicate IsDigitGroup(b: string) {
    && |b| > 0
    && IsDigit(b[0])
    && IsDigit(b[|b| - 1])
    && (forall i :: 0 <= i < |b| ==> IsDigit(b[i]) || b[i] == '_')
    && (forall i :: 0 < i < |b| ==> b[i - 1] != '_' || b[i] != '_')
  }

  function RemoveUnderscores(b: string): (r: string)
    ensures '_' !in r
    ensures '_' !in b ==> r == b
  {
    if b == [] then [] else (if b[0] == '_' then [] else [b[0]]) + RemoveUnderscores(b[1..])
  }

  /** The value of a string of decimal digits, most significant first. */
  function DigitsValue(ds: string): nat
    requires AllDigits(ds)
  {
    if ds == [] then 0 else 10 * DigitsValue(ds[..|ds| - 1]) + DigitValue(ds[|ds| - 1])
  }

  lemma {:induction false} DigitGroupLeavesDigits(b: string)
    requires forall i :: 0 <= i < |b| ==> IsDigit(b[i]) || b[i] == '_'
    ensures AllDigits(RemoveUnderscores(b))
  {
    if b != [] {
      DigitGroupLeavesDigits(b[1..]);
    }
  }

  /** The unsigned digit part of `int()`'s argument; None where Python raises ValueError. */
  function ParseDigitGroup(b: string): Option<nat> {
    if !IsDigitGroup(b) then None
    else
      DigitGroupLeavesDigits(b);
      Some(DigitsValue(RemoveUnderscores(b)))
  }

  /** An optional sign followed by a digit group. */
  function ParseSigned(t: string): Option<int> {
    if |t| > 0 && (t[0] == '-' || t[0] == '+') then
      match ParseDigitGroup(t[1..])
      case None => None
      case Some(v) => Some(if t[0] == '-' then -(v as int) else v)
    else
      match ParseDigitGroup(t)
      case None => None
      case Some(v) => Some(v)
  }

  /** What `int()` accepts once stripped: an optional sign and a digit group. */
  predicate IntLiteral(t: string) {
    IsDigitGroup(t) || (|t| > 0 && (t[0] == '-' || t[0] == '+') && IsDigitGroup(t[1..]))
  }

  /**
   * Python's `int(s)` in base 10: None where Python raises ValueError, and a
   * negative number only behind a minus sign.
   */
  function ParseInt(s: string): (r: Option<int>)
    ensures r.Some? <==> IntLiteral(Strip(s))
    ensures r.Some? && r.value < 0 ==> Strip(s)[0] == '-'
  {
    ParseSigned(Strip(s))
  }

  /**
   * The ASCII separators U+001C..U+001F are white space to `str.isspace` but
   * not to `int()`: a number behind one is refused.
   */
  lemma IntRefusesSeparator(c: char, n: nat)
    requires 28 <= c as int <= 31
    ensures ParseInt([c] + NatToString(n)) == None
  {
    var d := NatToString(n);
    var s := [c] + d;
    assert s[|s| - 1] == d[|d| - 1];
    assert IsDigit(d[|d| - 1]);
    StripUnpadded(s);
    assert !IsDigit(s[0]);
  }

  lemma {:induction false} NatToStringValue(n: nat)
    ensures DigitsValue(NatToString(n)) == n
  {
    if n >= 10 {
      NatToStringValue(n / 10);
      var s := NatToString(n);
      assert s[..|s| - 1] == NatToString(n / 10);
    }
  }

  lemma NatToStringGroup(n: nat)
    ensures ParseDigitGroup(NatToString(n)) == Some(n)
  {
    var digits := NatToString(n);
    assert IsDigitGroup(digits);
    assert '_' !in digits;
    NatToStringValue(n);
  }

  /** A string that neither starts nor ends with white space is its own strip. */
  lemma StripUnpadded(s: string)
    requires |s| > 0 && !IsSpace(s[0]) && !IsSpace(s[|s| - 1])
    ensures Strip(s) == s
  {
    assert TrimLeft(s) == s;
    assert TrimRight(s) == s;
  }

  /** A decimal rendering is read back by Python's `int()` as the same number. */
  lemma ParseIntToString(i: int)
    ensures ParseInt(IntToString(i)) == Some(i)
  {
    if i < 0 {
      ParseIntToStringNeg(i);
    } else {
      ParseIntToStringNonNeg(i);
    }
  }

  lemma ParseIntToStringNeg(i: int)
    requires i < 0
    ensures ParseInt(IntToString(i)) == Some(i)
  {
    var n: nat := -i;
    var s := "-" + NatToString(n);
    assert IntToString(i) == s;
    ParseNegative(n);
    assert ParseInt(s) == Some(i);
  }

  lemma ParseIntToStringNonNeg(i: int)
    requires i >= 0
    ensures ParseInt(IntToString(i)) == Some(i)
  {
    ParseNonNegative(i);
  }

  lemma ParseNonNegative(n: nat)
    ensures ParseInt(NatToString(n)) == Some(n)
  {
    var s := NatToString(n);
    StripUnpadded(s);
    assert IsDigit(s[0]);
    NatToStringGroup(n);
    assert ParseSigned(s) == Some(n);
  }

  lemma ParseNegative(n: nat)
    requires n > 0
    ensures ParseInt("-" + NatToString(n)) == Some(-(n as int))
  {
    var d := NatToString(n);
    var s := "-" + d;
    assert s[|s| - 1] == d[|d| - 1];
    assert IsDigit(d[|d| - 1]);
    StripUnpadded(s);
    NatToStringGroup(n);
    ParseSignedNegative(d, n);
  }

  lemma ParseSignedNegative(d: string, v: nat)
    requires ParseDigitGroup(d) == Some(v)
    ensures ParseSigned("-" + d) == Some(-(v as int))
  {
    var t := "-" + d;
    assert t[0] == '-' && t[1..] == d;
  }

  // ---------------------------------------------------------------------------
  // str.title()

  function ToUpper(c: char): char {
    if 'a' <= c <= 'z' then (c as int - 32) as char else c
  }

  function ToLower(c: char): char {
    if 'A' <= c <= 'Z' then (c as int + 32) as char else c
  }

  function TitleFrom(s: string, previousCased: bool): (r: string)
    ensures |r| == |s|
    ensures forall i :: 0 <= i < |s| ==>
      r[i] == (if (if i == 0 then previousCased else IsAsciiLetter(s[i - 1])) then ToLower(s[i]) else ToUpper(s[i]))
  {
    if s == [] then []
    else [if previousCased then ToLower(s[0]) else ToUpper(s[0])] + TitleFrom(s[1..], IsAsciiLetter(s[0]))
  }

  /**
   * Python's `str.title()` on ASCII letters: a letter is upper-cased when it
   * starts a word (the character before it is not a letter) and lower-cased
   * otherwise; every other character is kept.
   */
  function TitleCase(s: string): (r: string)
    ensures |r| == |s|
    ensures forall i :: 0 <= i < |s| ==>
      r[i] == (if i > 0 && IsAsciiLetter(s[i - 1]) then ToLower(s[i]) else ToUpper(s[i]))
  {
    TitleFrom(s, false)
  }
}
