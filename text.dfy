/**
 * Strings as the .NET base library treats them in the editor: white space,
 * trimming, splitting, case-insensitive comparison, integer formatting and
 * parsing, and the line structure of text files.
 */
module Text {

  datatype Option<T> = None | Some(value: T)
  {
    function GetOr(default: T): T
    {
      if Some? then value else default
    }
  }

  const Int32Min: int := -0x8000_0000
  const Int32Max: int := 0x7FFF_FFFF

  predicate IsInt32(n: int)
  {
    Int32Min <= n <= Int32Max
  }

  // ---------------------------------------------------------------------
  // White space and trimming
  // ---------------------------------------------------------------------

  /** char.IsWhiteSpace: the Unicode space, line and paragraph separators,
      U+0009..U+000D and U+0085. */
  predicate IsWhiteSpace(c: char)
  {
    ('\t' <= c <= '\r') || c == ' ' || c == '\U{85}' || c == '\U{A0}' || c == '\U{1680}'
    || ('\U{2000}' <= c <= '\U{200A}') || c == '\U{2028}' || c == '\U{2029}'
    || c == '\U{202F}' || c == '\U{205F}' || c == '\U{3000}'
  }

  /** string.IsNullOrWhiteSpace for a string that is not null. */
  predicate IsBlank(s: string)
  {
    forall i :: 0 <= i < |s| ==> IsWhiteSpace(s[i])
  }

  /** string.TrimStart(): the suffix left after dropping leading white space. */
  function TrimStart(s: string): (r: string)
    ensures |r| <= |s| && r == s[|s| - |r|..]
    ensures IsBlank(s[..|s| - |r|])
    ensures |r| > 0 ==> !IsWhiteSpace(r[0])
  {
    if |s| > 0 && IsWhiteSpace(s[0]) then
      var r := TrimStart(s[1..]);
      TrimStartStep(s, r);
      r
    else s
  }

  /** Dropping one more leading white-space character keeps TrimStart's
      description true. */
  lemma TrimStartStep(s: string, r: string)
    requires |s| > 0 && IsWhiteSpace(s[0])
    requires |r| <= |s| - 1 && r == s[1..][|s| - 1 - |r|..]
    requires IsBlank(s[1..][..|s| - 1 - |r|])
    ensures r == s[|s| - |r|..] && IsBlank(s[..|s| - |r|])
  {
    var k := |s| - |r|;
    assert s[1..][k - 1..] == s[k..];
    forall i | 0 <= i < k ensures IsWhiteSpace(s[..k][i]) {
      if i > 0 {
        assert s[..k][i] == s[1..][..k - 1][i - 1];
      }
    }
  }

  /** string.TrimEnd(): the prefix left after dropping trailing white space. */
  function TrimEnd(s: string): (r: string)
    ensures |r| <= |s| && r == s[..|r|]
    ensures IsBlank(s[|r|..])
    ensures |r| > 0 ==> !IsWhiteSpace(r[|r| - 1])
  {
    if |s| > 0 && IsWhiteSpace(s[|s| - 1]) then
      var r := TrimEnd(s[..|s| - 1]);
      assert s[..|s| - 1][|r|..] == s[|r|..|s| - 1];
      r
    else s
  }

  /** TrimEnd stops at the last character that is not white space. */
  lemma TrimEndAt(s: string, k: nat)
    requires 0 < k <= |s| && !IsWhiteSpace(s[k - 1]) && IsBlank(s[k..])
    ensures TrimEnd(s) == s[..k]
  {
  }

  /** string.Trim(). */
  function Trim(s: string): string
  {
    TrimEnd(TrimStart(s))
  }

  /** A string without white space is its own trim. */
  lemma TrimNoWhiteSpace(s: string)
    requires forall i :: 0 <= i < |s| ==> !IsWhiteSpace(s[i])
    ensures Trim(s) == s
  {
  }

  /** A string that starts and ends with a non-white character is its own
      trim. */
  lemma TrimNonWhiteEnds(s: string)
    requires s != [] && !IsWhiteSpace(s[0]) && !IsWhiteSpace(s[|s| - 1])
    ensures Trim(s) == s
  {
  }

  /** Trimming removes white space only at the two ends, and leaves a blank
      string empty. */
  lemma TrimShape(s: string)
    ensures var t := Trim(s);
      (|t| > 0 ==> !IsWhiteSpace(t[0]) && !IsWhiteSpace(t[|t| - 1]))
      && Contains(s, t)
      && (t == [] <==> IsBlank(s))
  {
    var u := TrimStart(s);
    var t := TrimEnd(u);
    var i := |s| - |u|;
    assert OccursAt(s, t, i);
    if t == [] {
      assert u[|t|..] == u;
      forall k | 0 <= k < |s| ensures IsWhiteSpace(s[k]) {
        assert s[k] == s[..i][k];
      }
    }
  }

  /** A trimmed string that is not blank keeps its first non-blank character. */
  lemma TrimKeepsContent(s: string, c: char)
    requires !IsWhiteSpace(c) && c in s
    ensures c in Trim(s)
  {
    TrimStartKeeps(s, c);
    TrimEndKeeps(TrimStart(s), c);
  }

  lemma TrimStartKeeps(s: string, c: char)
    requires !IsWhiteSpace(c) && c in s
    ensures c in TrimStart(s)
  {
    var u := TrimStart(s);
    var i := |s| - |u|;
    var k :| 0 <= k < |s| && s[k] == c;
    assert k >= i;
    assert u[k - i] == c;
  }

  lemma TrimEndKeeps(s: string, c: char)
    requires !IsWhiteSpace(c) && c in s
    ensures c in TrimEnd(s)
  {
    var t := TrimEnd(s);
    var k :| 0 <= k < |s| && s[k] == c;
    assert k < |t|;
    assert t[k] == c;
  }

  // ---------------------------------------------------------------------
  // Splitting
  // ---------------------------------------------------------------------

  /** string.Split(separators): the pieces between separator characters; a
      string with n separators has n + 1 pieces, some of them possibly empty. */
  function Split(s: string, seps: set<char>): (r: seq<string>)
    ensures |r| >= 1
    ensures forall k :: 0 <= k < |r| ==> forall c :: c in r[k] ==> c !in seps
  {
    if s == [] then [""]
    else if s[0] in seps then [""] + Split(s[1..], seps)
    else
      var rest := Split(s[1..], seps);
      [[s[0]] + rest[0]] + rest[1..]
  }

  /** Concatenates pieces, putting `sep` between neighbours. */
  function Join(pieces: seq<string>, sep: char): string
  {
    if |pieces| == 0 then ""
    else if |pieces| == 1 then pieces[0]
    else pieces[0] + [sep] + Join(pieces[1..], sep)
  }

  /** Splitting on one separator and joining with it gives the string back. */
  lemma {:induction false} JoinSplit(s: string, sep: char)
    ensures Join(Split(s, {sep}), sep) == s
  {
    if s == [] {
    } else if s[0] == sep {
      JoinSplit(s[1..], sep);
      var rest := Split(s[1..], {sep});
      assert Join([""] + rest, sep) == "" + [sep] + Join(rest, sep);
    } else {
      JoinSplit(s[1..], sep);
      var rest := Split(s[1..], {sep});
      if |rest| == 1 {
      } else {
        assert ([[s[0]] + rest[0]] + rest[1..])[1..] == rest[1..];
        assert Join(rest, sep) == rest[0] + [sep] + Join(rest[1..], sep);
      }
    }
  }

  /** A piece without the separator, then the separator: the split starts
      with that piece. */
  lemma {:induction false} SplitPiece(a: string, sep: char, rest: string)
    requires sep !in a
    ensures Split(a + [sep] + rest, {sep}) == [a] + Split(rest, {sep})
  {
    if a != [] {
      var t := a + [sep] + rest;
      assert t[0] == a[0] && t[1..] == a[1..] + [sep] + rest;
      SplitPiece(a[1..], sep, rest);
      var tail := Split(t[1..], {sep});
      assert tail[0] == a[1..] && tail[1..] == Split(rest, {sep});
      assert a == [a[0]] + a[1..];
    }
  }

  /** Text without the separator is one piece. */
  lemma {:induction false} SplitNoSeparator(a: string, sep: char)
    requires sep !in a
    ensures Split(a, {sep}) == [a]
  {
    if a != [] {
      SplitNoSeparator(a[1..], sep);
      assert a == [a[0]] + a[1..];
    }
  }

  /** Joining pieces that do not contain the separator and splitting again
      gives the pieces back. */
  lemma {:induction false} SplitJoin(pieces: seq<string>, sep: char)
    requires |pieces| >= 1 && forall k :: 0 <= k < |pieces| ==> sep !in pieces[k]
    ensures Split(Join(pieces, sep), {sep}) == pieces
  {
    if |pieces| == 1 {
      SplitNoSeparator(pieces[0], sep);
    } else {
      SplitJoin(pieces[1..], sep);
      SplitPiece(pieces[0], sep, Join(pieces[1..], sep));
    }
  }

  /** Joined pieces followed by a separator keep their pieces when split;
      what follows is split on its own. */
  lemma {:induction false} SplitJoinThen(pieces: seq<string>, sep: char, rest: string)
    requires |pieces| >= 1 && forall k :: 0 <= k < |pieces| ==> sep !in pieces[k]
    ensures Split(Join(pieces, sep) + [sep] + rest, {sep}) == pieces + Split(rest, {sep})
  {
    if |pieces| == 1 {
      SplitPiece(pieces[0], sep, rest);
    } else {
      assert sep !in pieces[0];
      SplitJoinThen(pieces[1..], sep, rest);
      SplitJoinThenStep(pieces, sep, rest);
    }
  }

  /** One step of SplitJoinThen: the head piece is split off in front of the
      rest. */
  lemma SplitJoinThenStep(pieces: seq<string>, sep: char, rest: string)
    requires |pieces| >= 2 && sep !in pieces[0]
    requires Split(Join(pieces[1..], sep) + [sep] + rest, {sep}) == pieces[1..] + Split(rest, {sep})
    ensures Split(Join(pieces, sep) + [sep] + rest, {sep}) == pieces + Split(rest, {sep})
  {
    var after := Join(pieces[1..], sep) + [sep] + rest;
    assert Join(pieces, sep) + [sep] + rest == pieces[0] + [sep] + after;
    SplitPiece(pieces[0], sep, after);
    assert pieces == [pieces[0]] + pieces[1..];
  }

  /** The pieces of a split, with empty pieces dropped
      (StringSplitOptions.RemoveEmptyEntries). */
  function SplitNonEmpty(s: string, seps: set<char>): (r: seq<string>)
    ensures forall k :: 0 <= k < |r| ==> r[k] != "" && forall c :: c in r[k] ==> c !in seps
  {
    DropEmpty(Split(s, seps))
  }

  function DropEmpty(pieces: seq<string>): (r: seq<string>)
    ensures forall k :: 0 <= k < |r| ==> r[k] != "" && r[k] in pieces
    ensures forall p :: p in pieces && p != "" ==> p in r
  {
    if pieces == [] then []
    else if pieces[0] == "" then DropEmpty(pieces[1..])
    else [pieces[0]] + DropEmpty(pieces[1..])
  }

  /** The first piece of a split is the text before the first separator. */
  lemma {:induction false} SplitHead(a: string, c: char, b: string, seps: set<char>)
    requires c in seps && forall x :: x in a ==> x !in seps
    ensures Split(a + [c] + b, seps)[0] == a
  {
    if a != [] {
      assert (a + [c] + b)[1..] == a[1..] + [c] + b;
      SplitHead(a[1..], c, b, seps);
      assert a == [a[0]] + a[1..];
    }
  }

  /** The first piece kept by RemoveEmptyEntries, when the first piece is not
      empty, is that piece. */
  lemma SplitNonEmptyHead(a: string, c: char, b: string, seps: set<char>)
    requires c in seps && a != [] && forall x :: x in a ==> x !in seps
    ensures |SplitNonEmpty(a + [c] + b, seps)| > 0 && SplitNonEmpty(a + [c] + b, seps)[0] == a
  {
    SplitHead(a, c, b, seps);
  }

  /** Index of the first occurrence of `c`. */
  function IndexOf(s: string, c: char): (r: Option<nat>)
    ensures r.None? <==> c !in s
    ensures r.Some? ==> r.value < |s| && s[r.value] == c && c !in s[..r.value]
  {
    if s == [] then None
    else if s[0] == c then Some(0)
    else
      match IndexOf(s[1..], c)
      case None => None
      case Some(i) =>
        assert s[..i + 1] == [s[0]] + s[1..][..i];
        Some(i + 1)
  }

  /** string.Split(c, 2): the text before the first `c` and everything after
      it, or the whole string when `c` does not occur. */
  function SplitFirst(s: string, c: char): (r: seq<string>)
    ensures 1 <= |r| <= 2
    ensures |r| == 1 <==> c !in s
    ensures |r| == 1 ==> r[0] == s
    ensures |r| == 2 ==> s == r[0] + [c] + r[1] && c !in r[0]
  {
    match IndexOf(s, c)
    case None => [s]
    case Some(i) =>
      assert s == s[..i] + [c] + s[i + 1..];
      [s[..i], s[i + 1..]]
  }

  /** A first-separator split takes back apart what was joined at a
      separator the head does not contain. */
  lemma SplitFirstOfJoin(a: string, c: char, b: string)
    requires c !in a
    ensures SplitFirst(a + [c] + b, c) == [a, b]
  {
    var s := a + [c] + b;
    IndexOfJoin(a, c, b);
    assert s[..|a|] == a && s[|a| + 1..] == b;
  }

  lemma {:induction false} IndexOfJoin(a: string, c: char, b: string)
    requires c !in a
    ensures IndexOf(a + [c] + b, c) == Some(|a|)
  {
    if a != [] {
      assert (a + [c] + b)[1..] == a[1..] + [c] + b;
      IndexOfJoin(a[1..], c, b);
    }
  }

  // ---------------------------------------------------------------------
  // Case and substring tests
  // ---------------------------------------------------------------------

  /** ToLowerInvariant on the ASCII letters; other characters are unchanged. */
  function LowerChar(c: char): char
  {
    if 'A' <= c <= 'Z' then (c as int + 32) as char else c
  }

  function Lower(s: string): (r: string)
    ensures |r| == |s| && forall i :: 0 <= i < |s| ==> r[i] == LowerChar(s[i])
  {
    seq(|s|, i requires 0 <= i < |s| => LowerChar(s[i]))
  }

  lemma LowerIdempotent(s: string)
    ensures Lower(Lower(s)) == Lower(s)
  {
  }

  lemma LowerConcat(a: string, b: string)
    ensures Lower(a + b) == Lower(a) + Lower(b)
  {
  }

  /** string.Contains(t): `t` occurs in `s` as a contiguous piece. */
  predicate Contains(s: string, t: string)
  {
    exists i :: 0 <= i <= |s| - |t| && OccursAt(s, t, i)
  }

  predicate OccursAt(s: string, t: string, i: int)
  {
    0 <= i <= |s| - |t| && s[i..i + |t|] == t
  }

  /** Every string contains the empty string and itself. */
  lemma ContainsTrivial(s: string)
    ensures Contains(s, "") && Contains(s, s)
  {
    assert OccursAt(s, "", 0);
    assert OccursAt(s, s, 0);
  }

  /** Containment is transitive: a piece of a piece is a piece. */
  lemma ContainsTransitive(s: string, t: string, u: string)
    requires Contains(s, t) && Contains(t, u)
    ensures Contains(s, u)
  {
    var i :| 0 <= i <= |s| - |t| && OccursAt(s, t, i);
    var j :| 0 <= j <= |t| - |u| && OccursAt(t, u, j);
    assert forall k :: 0 <= k < |u| ==> s[i + j + k] == t[j + k] == u[k];
    assert s[i + j..i + j + |u|] == u;
    assert OccursAt(s, u, i + j);
  }

  /** Lower-casing both sides keeps a containment. */
  lemma ContainsLower(s: string, t: string)
    requires Contains(s, t)
    ensures Contains(Lower(s), Lower(t))
  {
    var i :| 0 <= i <= |s| - |t| && OccursAt(s, t, i);
    assert Lower(s)[i..i + |t|] == Lower(t);
    assert OccursAt(Lower(s), Lower(t), i);
  }

  predicate EndsWith(s: string, suffix: string)
  {
    |suffix| <= |s| && s[|s| - |suffix|..] == suffix
  }

  /** EndsWith with StringComparison.OrdinalIgnoreCase, on ASCII case. */
  predicate EndsWithIgnoreCase(s: string, suffix: string)
  {
    EndsWith(Lower(s), Lower(suffix))
  }

  lemma EndsWithAppend(a: string, suffix: string)
    ensures EndsWith(a + suffix, suffix) && EndsWithIgnoreCase(a + suffix, suffix)
  {
    assert (a + suffix)[|a|..] == suffix;
    assert Lower(a + suffix)[|a|..] == Lower(suffix);
  }

  // ---------------------------------------------------------------------
  // Decimal digits
  // ---------------------------------------------------------------------

  predicate IsDigit(c: char)
  {
    '0' <= c <= '9'
  }

  predicate AllDigits(s: string)
  {
    forall i :: 0 <= i < |s| ==> IsDigit(s[i])
  }

  function DigitValue(c: char): (d: nat)
    requires IsDigit(c)
    ensures d < 10
  {
    c as int - '0' as int
  }

  function DigitChar(d: nat): (c: char)
    requires d < 10
    ensures IsDigit(c) && DigitValue(c) == d
  {
    ('0' as int + d) as char
  }

  /** The value of a run of decimal digits. */
  function DigitsValue(s: string): nat
    requires AllDigits(s)
  {
    if s == [] then 0 else DigitsValue(s[..|s| - 1]) * 10 + DigitValue(s[|s| - 1])
  }

  /** int.ToString() of a non-negative number: its decimal digits, without
      leading zeros. */
  function NatToString(n: nat): (r: string)
    ensures |r| >= 1 && AllDigits(r)
    ensures |r| > 1 ==> r[0] != '0'
  {
    if n < 10 then [DigitChar(n)] else NatToString(n / 10) + [DigitChar(n % 10)]
  }

  /** Reading back the digits of a number gives the number. */
  lemma {:induction false} NatToStringValue(n: nat)
    ensures DigitsValue(NatToString(n)) == n
  {
    if n >= 10 {
      NatToStringValue(n / 10);
      var s := NatToString(n);
      assert s[..|s| - 1] == NatToString(n / 10);
    }
  }

  lemma NatToStringInjective(a: nat, b: nat)
    requires NatToString(a) == NatToString(b)
    ensures a == b
  {
    NatToStringValue(a);
    NatToStringValue(b);
  }

  /** int.ToString() with the invariant negative sign. */
  function IntToString(n: int): (r: string)
    ensures |r| >= 1
  {
    if n < 0 then "-" + NatToString(-n) else NatToString(n)
  }

  /** int.ToString() writes only digits and a minus sign. */
  lemma IntToStringChars(n: int)
    ensures forall c :: c in IntToString(n) ==> c == '-' || IsDigit(c)
    ensures IntToString(n)[0] == '-' || IsDigit(IntToString(n)[0])
  {
    var s := IntToString(n);
    if n < 0 {
      assert forall i :: 1 <= i < |s| ==> s[i] == NatToString(-n)[i - 1];
    }
  }

  /** Leading zeros do not change the value of a digit run. */
  lemma {:induction false} LeadingZerosValue(z: nat, s: string)
    requires AllDigits(s)
    ensures AllDigits(Zeros(z) + s) && DigitsValue(Zeros(z) + s) == DigitsValue(s)
  {
    if s == [] {
      assert Zeros(z) + s == Zeros(z);
      ZerosValue(z);
    } else {
      var t := Zeros(z) + s;
      assert t[..|t| - 1] == Zeros(z) + s[..|s| - 1];
      LeadingZerosValue(z, s[..|s| - 1]);
    }
  }

  lemma {:induction false} ZerosValue(z: nat)
    ensures AllDigits(Zeros(z)) && DigitsValue(Zeros(z)) == 0
  {
    if z > 0 {
      ZerosValue(z - 1);
      assert Zeros(z)[..z - 1] == Zeros(z - 1);
    }
  }

  function Zeros(z: nat): (r: string)
    ensures |r| == z && forall i :: 0 <= i < z ==> r[i] == '0'
  {
    seq(z, i => '0')
  }

  /** The format "D{width}": the digits of `n` left-padded with zeros to at
      least `width` characters. */
  function PadDigits(n: nat, width: nat): (r: string)
    ensures AllDigits(r) && |r| >= width
    ensures DigitsValue(r) == n
  {
    var d := NatToString(n);
    NatToStringValue(n);
    LeadingZerosValue(if |d| < width then width - |d| else 0, d);
    Zeros(if |d| < width then width - |d| else 0) + d
  }

  /** Different numbers are formatted differently, whatever the padding. */
  lemma PadDigitsInjective(a: nat, b: nat, width: nat)
    requires PadDigits(a, width) == PadDigits(b, width)
    ensures a == b
  {
  }

  // ---------------------------------------------------------------------
  // int.TryParse
  // ---------------------------------------------------------------------

  /** The white space NumberStyles.Integer allows around a number. */
  predicate IsNumberWhite(c: char)
  {
    c == ' ' || '\t' <= c <= '\r'
  }

  function StripNumberWhite(s: string): (r: string)
    ensures |r| <= |s|
  {
    if |s| > 0 && IsNumberWhite(s[0]) then StripNumberWhite(s[1..])
    else if |s| > 0 && IsNumberWhite(s[|s| - 1]) then StripNumberWhite(s[..|s| - 1])
    else s
  }

  /** int.TryParse(s, out v): optional surrounding white space, an optional
      sign, one or more ASCII digits, and a value inside the 32-bit range. */
  function ParseInt32(s: string): (r: Option<int>)
    ensures r.Some? ==> IsInt32(r.value)
  {
    var t := StripNumberWhite(s);
    if |t| > 0 && (t[0] == '-' || t[0] == '+') then
      ParseDigits(t[1..], t[0] == '-')
    else
      ParseDigits(t, false)
  }

  function ParseDigits(d: string, negative: bool): (r: Option<int>)
    ensures r.Some? ==> IsInt32(r.value)
  {
    if |d| > 0 && AllDigits(d) then
      var v: int := if negative then -(DigitsValue(d) as int) else DigitsValue(d);
      if IsInt32(v) then Some(v) else None
    else None
  }

  /** Formatting a 32-bit number and parsing the text gives the number back. */
  lemma ParseIntToString(n: int)
    requires IsInt32(n)
    ensures ParseInt32(IntToString(n)) == Some(n)
  {
    var s := IntToString(n);
    if n < 0 {
      NatToStringValue(-n);
      var d := NatToString(-n);
      assert s[0] == '-' && s[1..] == d;
      assert !IsNumberWhite(s[|s| - 1]) by { assert s[|s| - 1] == d[|d| - 1]; }
    } else {
      NatToStringValue(n);
    }
  }

  /** A digit run alone parses as its value. */
  lemma ParseNatToString(n: nat)
    requires n <= Int32Max
    ensures ParseInt32(NatToString(n)) == Some(n)
  {
    ParseIntToString(n);
  }

  // ---------------------------------------------------------------------
  // Lines of a text file
  // ---------------------------------------------------------------------

  predicate IsLineBreak(c: char)
  {
    c == '\r' || c == '\n'
  }

  predicate HasNoLineBreak(s: string)
  {
    forall i :: 0 <= i < |s| ==> !IsLineBreak(s[i])
  }

  /** Index of the first line break, or the length when there is none. */
  function LineEnd(t: string): (i: nat)
    ensures i <= |t| && HasNoLineBreak(t[..i])
    ensures i < |t| ==> IsLineBreak(t[i])
  {
    if t == [] || IsLineBreak(t[0]) then 0
    else
      var i := LineEnd(t[1..]);
      assert t[..i + 1] == [t[0]] + t[1..][..i];
      i + 1
  }

  /** File.ReadAllLines: the text cut at "\r\n", "\r" and "\n"; a final line
      break does not start another line. */
  function ReadAllLines(t: string): (r: seq<string>)
    ensures forall k :: 0 <= k < |r| ==> HasNoLineBreak(r[k])
    decreases |t|
  {
    if t == [] then []
    else
      var i := LineEnd(t);
      if i == |t| then [t]
      else
        [t[..i]] + ReadAllLines(t[NextLineStart(t, i)..])
  }

  /** Where the line after the break at `i` starts: "\r\n" is one break. */
  function NextLineStart(t: string, i: nat): (j: nat)
    requires i < |t|
    ensures i < j <= |t|
  {
    if t[i] == '\r' && i + 1 < |t| && t[i + 1] == '\n' then i + 2 else i + 1
  }

  /** File.WriteAllLines: every line followed by "\r\n". */
  function WriteAllLines(lines: seq<string>): string
  {
    if lines == [] then "" else lines[0] + "\r\n" + WriteAllLines(lines[1..])
  }

  /** Lines without line breaks survive being written and read back. */
  lemma {:induction false} ReadWriteLines(lines: seq<string>)
    requires forall k :: 0 <= k < |lines| ==> HasNoLineBreak(lines[k])
    ensures ReadAllLines(WriteAllLines(lines)) == lines
  {
    if lines != [] {
      ReadLineThenRest(lines[0], WriteAllLines(lines[1..]));
      ReadWriteLines(lines[1..]);
    }
  }

  lemma ReadLineThenRest(l: string, rest: string)
    requires HasNoLineBreak(l)
    ensures ReadAllLines(l + "\r\n" + rest) == [l] + ReadAllLines(rest)
  {
    var t := l + ("\r\n" + rest);
    assert t == l + "\r\n" + rest;
    LineEndAt(l, "\r\n" + rest);
    var i := LineEnd(t);
    assert t[i] == '\r' && t[i + 1] == '\n';
    assert t[..i] == l;
    assert t[i + 2..] == rest;
    assert ReadAllLines(t) == [t[..i]] + ReadAllLines(t[NextLineStart(t, i)..]);
  }

  lemma {:induction false} LineEndAt(l: string, rest: string)
    requires HasNoLineBreak(l) && |rest| > 0 && IsLineBreak(rest[0])
    ensures LineEnd(l + rest) == |l|
  {
    if l != [] {
      assert (l + rest)[1..] == l[1..] + rest;
      LineEndAt(l[1..], rest);
    }
  }
}
