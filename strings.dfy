/**
 * The parts of Python's `str` that the modelled code relies on: substring
 * search, `split`, `join`, `replace`, `strip`, `startswith`/`endswith`, and the
 * conversions `str(int)` and `int(str)`.
 */
module Strings {
  import opened Wrappers

  /** The decimal digits `\d` and `int()` accept (ASCII only in this model). */
  predicate IsDigit(c: char) { '0' <= c <= '9' }

  /** Exactly the characters for which Python's `str.isspace()` holds; `strip()` and `\s` use this set. */
  predicate IsSpace(c: char) {
    var k := c as int;
    (9 <= k <= 13) || (28 <= k <= 32) || k == 0x85 || k == 0xA0 || k == 0x1680
    || (0x2000 <= k <= 0x200A) || k == 0x2028 || k == 0x2029 || k == 0x202F
    || k == 0x205F || k == 0x3000
  }

  predicate AllDigits(s: string) { forall i :: 0 <= i < |s| ==> IsDigit(s[i]) }

  // ---------------------------------------------------------------- search

  /** `sub` occurs in `s` starting at index `i`. */
  predicate OccursAt(s: string, sub: string, i: nat) {
    i + |sub| <= |s| && s[i..i + |sub|] == sub
  }

  /** `s.find(sub, start)` for `0 <= start`: the first occurrence at or after `start`. */
  function FindFrom(s: string, sub: string, start: nat): (r: Option<nat>)
    ensures r.Some? ==> start <= r.value && OccursAt(s, sub, r.value)
    ensures r.Some? ==> forall j :: start <= j < r.value ==> !OccursAt(s, sub, j)
    ensures r.None? ==> forall j :: start <= j ==> !OccursAt(s, sub, j)
    decreases |s| - start
  {
    if start + |sub| > |s| then None
    else if s[start..start + |sub|] == sub then Some(start)
    else FindFrom(s, sub, start + 1)
  }

  /** `s.find(sub, start)` for any integer start: a negative one counts from the end. */
  function PyFind(s: string, sub: string, start: int): (r: Option<nat>)
  {
    FindFrom(s, sub, if start >= 0 then start else if |s| + start >= 0 then |s| + start else 0)
  }

  /** Python's `sub in s`. */
  predicate Contains(s: string, sub: string) {
    FindFrom(s, sub, 0).Some?
  }

  lemma ContainsIff(s: string, sub: string)
    ensures Contains(s, sub) <==> exists i: nat :: OccursAt(s, sub, i)
  {
    if !Contains(s, sub) {
      assert forall j: nat :: !OccursAt(s, sub, j);
    }
  }

  /** A string that lacks a character of `sub` cannot contain `sub`. */
  lemma NotContainsByChar(s: string, sub: string, c: char)
    requires c in sub && c !in s
    ensures !Contains(s, sub)
  {
  }

  // ---------------------------------------------------------------- split / join

  /** `s.split(sep)` for a non-empty separator: cut at every leftmost, non-overlapping occurrence. */
  function Split(s: string, sep: string): (r: seq<string>)
    requires |sep| > 0
    ensures |r| >= 1
    decreases |s|
  {
    match FindFrom(s, sep, 0)
    case None => [s]
    case Some(i) => [s[..i]] + Split(s[i + |sep|..], sep)
  }

  /** `sep.join(parts)`. */
  function Join(parts: seq<string>, sep: string): string
  {
    if |parts| == 0 then ""
    else if |parts| == 1 then parts[0]
    else parts[0] + sep + Join(parts[1..], sep)
  }

  /** Joining the pieces of a split with the same separator gives back the string. */
  lemma {:induction false} SplitJoin(s: string, sep: string)
    requires |sep| > 0
    ensures Join(Split(s, sep), sep) == s
    decreases |s|
  {
    match FindFrom(s, sep, 0)
    case None =>
    case Some(i) =>
      var rest := s[i + |sep|..];
      var tail := Split(rest, sep);
      SplitJoin(rest, sep);
      var parts := [s[..i]] + tail;
      assert Split(s, sep) == parts;
      assert parts[0] == s[..i] && parts[1..] == tail;
      assert Join(parts, sep) == s[..i] + sep + Join(tail, sep);
      assert s == s[..i] + sep + rest;
  }

  /** No piece of a split contains the separator. */
  lemma {:induction false} SplitPiecesLackSep(s: string, sep: string)
    requires |sep| > 0
    ensures forall p :: p in Split(s, sep) ==> !Contains(p, sep)
    decreases |s|
  {
    match FindFrom(s, sep, 0)
    case None =>
    case Some(i) =>
      SplitPiecesLackSep(s[i + |sep|..], sep);
      BeforeFirst(s, sep, i);
  }

  /** The text before the first occurrence of `sep` does not contain `sep`. */
  lemma BeforeFirst(s: string, sep: string, i: nat)
    requires |sep| > 0 && FindFrom(s, sep, 0) == Some(i)
    ensures !Contains(s[..i], sep)
  {
    var u := s[..i];
    forall j: nat ensures !OccursAt(u, sep, j) {
      if j + |sep| <= |u| {
        assert !OccursAt(s, sep, j);
        SameSlice(s, u, j, |sep|);
      }
    }
    ContainsIff(u, sep);
  }

  /** Slices of a string and of one of its prefixes agree where both are defined. */
  lemma SameSlice(s: string, u: string, j: nat, len: nat)
    requires |u| <= |s| && u == s[..|u|] && j + len <= |u|
    ensures u[j..j + len] == s[j..j + len]
  {
  }

  lemma SplitAbsent(s: string, sep: string)
    requires |sep| > 0 && !Contains(s, sep)
    ensures Split(s, sep) == [s]
  {
  }

  /** Splitting `a + sep + b` where `a` has no occurrence that ends inside `a + sep`. */
  lemma SplitAt(a: string, sep: string, b: string)
    requires |sep| > 0
    requires forall j :: 0 <= j < |a| ==> !OccursAt(a + sep + b, sep, j)
    ensures Split(a + sep + b, sep) == [a] + Split(b, sep)
  {
    var s := a + sep + b;
    assert OccursAt(s, sep, |a|) by { assert s[|a|..|a| + |sep|] == sep; }
    assert FindFrom(s, sep, 0) == Some(|a|);
    assert s[..|a|] == a;
    assert s[|a| + |sep|..] == b;
  }

  /** The single-character case of SplitAt: `a` only has to lack the character. */
  lemma SplitAtChar(a: string, c: char, b: string)
    requires c !in a
    ensures Split(a + [c] + b, [c]) == [a] + Split(b, [c])
  {
    var s := a + [c] + b;
    forall j | 0 <= j < |a| ensures !OccursAt(s, [c], j) {
      assert s[j] == a[j];
      assert s[j..j + 1] == [a[j]];
    }
    SplitAt(a, [c], b);
  }

  /** A string that starts with the separator and has no other occurrence splits into an empty head and the rest. */
  lemma SplitLeading(sep: string, rest: string)
    requires |sep| > 0 && !Contains(rest, sep)
    ensures Split(sep + rest, sep) == ["", rest]
  {
    var s := sep + rest;
    assert s[0..|sep|] == sep;
    assert FindFrom(s, sep, 0) == Some(0);
    assert s[..0] == "" && s[|sep|..] == rest;
    SplitAbsent(rest, sep);
  }

  /** For a single character, containment is membership. */
  lemma ContainsChar(s: string, c: char)
    ensures Contains(s, [c]) <==> c in s
  {
    ContainsIff(s, [c]);
    if c in s {
      var j :| 0 <= j < |s| && s[j] == c;
      assert OccursAt(s, [c], j);
    }
    if Contains(s, [c]) {
      var j: nat :| OccursAt(s, [c], j);
      assert s[j..j + 1][0] == s[j];
    }
  }

  lemma SplitNoChar(a: string, c: char)
    requires c !in a
    ensures Split(a, [c]) == [a]
  {
    NotContainsByChar(a, [c], c);
  }

  /** Joining with a separator that occurs in no part and then splitting gives back the parts. */
  lemma {:induction false} JoinSplit(parts: seq<string>, c: char)
    requires |parts| >= 1
    requires forall p :: p in parts ==> c !in p
    ensures Split(Join(parts, [c]), [c]) == parts
  {
    if |parts| == 1 {
      SplitNoChar(parts[0], c);
    } else {
      JoinSplit(parts[1..], c);
      SplitAtChar(parts[0], c, Join(parts[1..], [c]));
      assert parts == [parts[0]] + parts[1..];
    }
  }

  /** Appending a part adds the separator and the part. */
  lemma {:induction false} JoinSnoc(parts: seq<string>, x: string, sep: string)
    requires |parts| >= 1
    ensures Join(parts + [x], sep) == Join(parts, sep) + sep + x
  {
    if |parts| > 1 {
      JoinSnoc(parts[1..], x, sep);
      assert (parts + [x])[1..] == parts[1..] + [x];
    }
  }

  /** Each part followed by a newline. */
  function Terminated(parts: seq<string>): (r: seq<string>)
    ensures |r| == |parts|
    ensures forall i :: 0 <= i < |parts| ==> r[i] == parts[i] + "\n"
  {
    seq(|parts|, i requires 0 <= i < |parts| => parts[i] + "\n")
  }

  /**
   * `readlines()` of a file holding `s`: its lines, each keeping its newline,
   * and no empty line after a final newline.
   */
  function ReadLines(s: string): (r: seq<string>)
  {
    var p := Split(s, "\n");
    Terminated(p[..|p| - 1]) + (if p[|p| - 1] == "" then [] else [p[|p| - 1]])
  }

  /** Reading back lines joined by newlines: every line but the last keeps its newline. */
  lemma ReadLinesJoin(parts: seq<string>)
    requires |parts| >= 1 && parts[|parts| - 1] != ""
    requires forall p :: p in parts ==> '\n' !in p
    ensures ReadLines(Join(parts, "\n")) == Terminated(parts[..|parts| - 1]) + [parts[|parts| - 1]]
  {
    var s := Join(parts, "\n");
    assert Split(s, "\n") == parts by {
      JoinSplit(parts, '\n');
    }
    ReadLinesOfPieces(s, parts);
  }

  /** `readlines()` in terms of the newline-separated pieces, when the last piece is not empty. */
  lemma ReadLinesOfPieces(s: string, pieces: seq<string>)
    requires Split(s, "\n") == pieces && pieces[|pieces| - 1] != ""
    ensures ReadLines(s) == Terminated(pieces[..|pieces| - 1]) + [pieces[|pieces| - 1]]
  {
  }

  /** A text that ends with its only newline reads back as that one line. */
  lemma ReadLinesOne(line: string)
    requires '\n' !in line
    ensures ReadLines(line + "\n") == [line + "\n"]
  {
    SplitAtChar(line, '\n', "");
    SplitNoChar("", '\n');
    assert line + "\n" == line + ['\n'] + "";
  }

  /** Joining a first part in front of a non-empty list of parts. */
  lemma JoinCons(x: string, parts: seq<string>, sep: string)
    requires |parts| >= 1
    ensures Join([x] + parts, sep) == x + sep + Join(parts, sep)
  {
    assert ([x] + parts)[1..] == parts;
  }

  /** A character in neither the parts nor the separator is not in their join. */
  lemma {:induction false} JoinLacks(parts: seq<string>, sep: string, c: char)
    requires c !in sep && forall p :: p in parts ==> c !in p
    ensures c !in Join(parts, sep)
  {
    if |parts| > 1 {
      JoinLacks(parts[1..], sep, c);
      assert parts[0] in parts;
    } else if |parts| == 1 {
      assert parts[0] in parts;
    }
  }

  /** Joining two non-empty lists of parts and joining their concatenation agree. */
  lemma {:induction false} JoinAppend(a: seq<string>, b: seq<string>, sep: string)
    requires |a| >= 1 && |b| >= 1
    ensures Join(a, sep) + sep + Join(b, sep) == Join(a + b, sep)
  {
    if |a| > 1 {
      JoinAppend(a[1..], b, sep);
      assert (a + b)[1..] == a[1..] + b;
    } else {
      assert (a + b)[1..] == b;
    }
  }

  /** `s.replace(old, new)` for a non-empty `old`: replace every split point. */
  function ReplaceAll(s: string, pattern: string, replacement: string): (r: string)
    requires |pattern| > 0
  {
    Join(Split(s, pattern), replacement)
  }

  /** Every character of a piece of a split occurs in the split string. */
  lemma {:induction false} SplitPiecesWithin(s: string, sep: string, c: char)
    requires |sep| > 0 && c !in s
    ensures forall p :: p in Split(s, sep) ==> c !in p
    decreases |s|
  {
    match FindFrom(s, sep, 0)
    case None =>
    case Some(i) =>
      SplitPiecesWithin(s[i + |sep|..], sep, c);
  }

  /** A replacement adds no character that is in neither the string nor the replacement. */
  lemma ReplaceLacks(s: string, pattern: string, replacement: string, c: char)
    requires |pattern| > 0 && c !in s && c !in replacement
    ensures c !in ReplaceAll(s, pattern, replacement)
  {
    SplitPiecesWithin(s, pattern, c);
    JoinLacks(Split(s, pattern), replacement, c);
  }

  lemma ReplaceAbsent(s: string, pattern: string, replacement: string)
    requires |pattern| > 0 && !Contains(s, pattern)
    ensures ReplaceAll(s, pattern, replacement) == s
  {
  }

  // ---------------------------------------------------------------- prefix / suffix

  predicate StartsWith(s: string, prefix: string) {
    |prefix| <= |s| && s[..|prefix|] == prefix
  }

  predicate EndsWith(s: string, suffix: string) {
    |suffix| <= |s| && s[|s| - |suffix|..] == suffix
  }

  // ---------------------------------------------------------------- strip

  function TrimLeft(s: string): (r: string)
    ensures |r| <= |s| && r == s[|s| - |r|..]
    ensures forall i :: 0 <= i < |s| - |r| ==> IsSpace(s[i])
    ensures |r| > 0 ==> !IsSpace(r[0])
  {
    if |s| > 0 && IsSpace(s[0]) then TrimLeft(s[1..]) else s
  }

  function TrimRight(s: string): (r: string)
    ensures |r| <= |s| && r == s[..|r|]
    ensures forall i :: |r| <= i < |s| ==> IsSpace(s[i])
    ensures |r| > 0 ==> !IsSpace(r[|r| - 1])
  {
    if |s| > 0 && IsSpace(s[|s| - 1]) then TrimRight(s[..|s| - 1]) else s
  }

  /** `s.strip()`: drop leading and trailing whitespace. */
  function Strip(s: string): (r: string)
  {
    TrimRight(TrimLeft(s))
  }

  /** `strip()` returns a contiguous piece of its input and leaves no whitespace at either end. */
  lemma StripIsPiece(s: string)
    ensures exists lo: nat, hi: nat :: lo <= hi <= |s| && Strip(s) == s[lo..hi]
    ensures |Strip(s)| > 0 ==> !IsSpace(Strip(s)[0]) && !IsSpace(Strip(s)[|Strip(s)| - 1])
    ensures forall c :: c in Strip(s) ==> c in s
  {
    var l := TrimLeft(s);
    var r := TrimRight(l);
    var lo := |s| - |l|;
    assert r == s[lo..lo + |r|];
    if |r| > 0 {
      assert r[0] == l[0];
    }
  }

  /** A string with no whitespace at its ends is its own strip. */
  lemma StripNoEdges(s: string)
    requires |s| > 0 ==> !IsSpace(s[0]) && !IsSpace(s[|s| - 1])
    ensures Strip(s) == s
  {
  }

  lemma StripIdempotent(s: string)
    ensures Strip(Strip(s)) == Strip(s)
  {
    StripIsPiece(s);
    StripNoEdges(Strip(s));
  }

  // ---------------------------------------------------------------- integers

  function DigitChar(d: nat): (c: char)
    requires d < 10
    ensures IsDigit(c)
  {
    "0123456789"[d]
  }

  function DigitValue(c: char): (d: nat)
    requires IsDigit(c)
    ensures d < 10
  {
    (c as int - '0' as int) as nat
  }

  /** The value of a string of decimal digits. */
  function DigitsValue(s: string): nat
    requires AllDigits(s)
  {
    if |s| == 0 then 0 else DigitsValue(s[..|s| - 1]) * 10 + DigitValue(s[|s| - 1])
  }

  /** `str(n)` for a natural number. */
  function NatToString(n: nat): (r: string)
    ensures |r| > 0 && AllDigits(r)
    decreases n
  {
    if n < 10 then [DigitChar(n)] else NatToString(n / 10) + [DigitChar(n % 10)]
  }

  /** `str(i)`. */
  function IntToString(i: int): (r: string)
  {
    if i < 0 then "-" + NatToString(-i) else NatToString(i)
  }

  lemma {:induction false} NatToStringValue(n: nat)
    ensures DigitsValue(NatToString(n)) == n
    decreases n
  {
    if n >= 10 {
      NatToStringValue(n / 10);
      var s := NatToString(n);
      assert s[..|s| - 1] == NatToString(n / 10);
      assert DigitValue(DigitChar(n % 10)) == n % 10;
    } else {
      assert DigitValue(DigitChar(n)) == n;
    }
  }

  /** `int(s)`: surrounding whitespace, an optional sign, then at least one digit. */
  function ParseInt(s: string): (r: Option<int>)
  {
    var t := Strip(s);
    if |t| > 0 && (t[0] == '-' || t[0] == '+') then
      (if |t| > 1 && AllDigits(t[1..])
       then (var v: int := DigitsValue(t[1..]); Some(if t[0] == '-' then -v else v))
       else None)
    else if |t| > 0 && AllDigits(t) then Some(DigitsValue(t))
    else None
  }

  /** `int(str(i)) == i`. */
  lemma IntRoundTrip(i: int)
    ensures ParseInt(IntToString(i)) == Some(i)
  {
    if i < 0 {
      NegativeRoundTrip(i);
    } else {
      NaturalRoundTrip(i);
    }
  }

  lemma NaturalRoundTrip(n: nat)
    ensures ParseInt(IntToString(n)) == Some(n)
  {
    ParseDigits(IntToString(n));
    NatToStringValue(n);
  }

  lemma NegativeRoundTrip(i: int)
    requires i < 0
    ensures ParseInt(IntToString(i)) == Some(i)
  {
    var n: nat := -i;
    NatToStringValue(n);
    ParseNegative(IntToString(i), NatToString(n), i);
  }

  /** A run of digits parses to its decimal value. */
  lemma ParseDigits(s: string)
    requires |s| > 0 && AllDigits(s)
    ensures ParseInt(s) == Some(DigitsValue(s))
  {
    assert IsDigit(s[0]) && IsDigit(s[|s| - 1]);
    StripNoEdges(s);
  }

  /** A minus sign followed by the digits of `-i` parses to `i`. */
  lemma ParseNegative(s: string, digits: string, i: int)
    requires |digits| > 0 && AllDigits(digits) && s == "-" + digits && DigitsValue(digits) == -i
    ensures ParseInt(s) == Some(i)
  {
    assert IsDigit(digits[|digits| - 1]) && s[|s| - 1] == digits[|digits| - 1];
    StripNoEdges(s);
    assert s[1..] == digits;
  }

  /** `str(i)` never contains the characters other formats use as separators. */
  lemma IntToStringChars(i: int)
    ensures forall c :: c in IntToString(i) ==> IsDigit(c) || c == '-'
  {
    var s := IntToString(i);
    if i < 0 {
      assert forall k :: 1 <= k < |s| ==> s[k] == NatToString(-i)[k - 1];
    }
  }
}
