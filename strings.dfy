/** The fragment of java.lang.String and commons-lang StringUtils that the
  * library relies on: startsWith, contains, indexOf, split on a
  * one-character delimiter, join, replace, trim, isBlank, String.valueOf(int)
  * and the case-insensitive comparisons (case folding restricted to ASCII). */
module Strings {
  import opened Wrappers

  predicate StartsWith(s: string, prefix: string) {
    |prefix| <= |s| && s[..|prefix|] == prefix
  }

  /** A text starting with `a` starts with every prefix of `a`. */
  lemma StartsWithShorter(s: string, a: string, b: string)
    requires StartsWith(s, a) && StartsWith(a, b)
    ensures StartsWith(s, b)
  {
    assert s[..|b|] == s[..|a|][..|b|];
  }

  lemma StartsWithFirst(s: string, prefix: string)
    requires |prefix| > 0
    ensures StartsWith(s, prefix) ==> |s| > 0 && s[0] == prefix[0]
  {
    if |s| >= |prefix| {
      assert s[..|prefix|][0] == s[0];
    }
  }

  predicate EndsWith(s: string, suffix: string) {
    |suffix| <= |s| && s[|s| - |suffix|..] == suffix
  }

  predicate OccursAt(s: string, sub: string, i: int) {
    0 <= i && i + |sub| <= |s| && s[i..i + |sub|] == sub
  }

  /** String.indexOf(sub, from) for a non-empty `sub`: the first occurrence at
    * or after `from`, or -1. */
  function IndexOf(s: string, sub: string, from: nat): (r: int)
    requires |sub| > 0
    ensures r == -1 || (from <= r && OccursAt(s, sub, r))
    ensures forall i :: from <= i && (r == -1 || i < r) ==> !OccursAt(s, sub, i)
    decreases |s| - from
  {
    if from + |sub| > |s| then -1
    else if s[from..from + |sub|] == sub then from
    else IndexOf(s, sub, from + 1)
  }

  /** String.contains for a non-empty `sub`. */
  predicate Contains(s: string, sub: string)
    requires |sub| > 0
  {
    IndexOf(s, sub, 0) != -1
  }

  lemma ContainsIff(s: string, sub: string)
    requires |sub| > 0
    ensures Contains(s, sub) <==> exists i :: OccursAt(s, sub, i)
  {
  }

  /** String.contains for any text: the empty text occurs everywhere. */
  predicate HasSubstring(s: string, sub: string) {
    |sub| == 0 || Contains(s, sub)
  }

  // ----- split / join -----------------------------------------------------

  /** Every piece between occurrences of `c`, empty ones included. */
  function Pieces(s: string, c: char): (r: seq<string>)
    ensures |r| >= 1
    decreases |s|
  {
    if |s| == 0 then [""]
    else
      var rest := Pieces(s[1..], c);
      if s[0] == c then [""] + rest
      else [[s[0]] + rest[0]] + rest[1..]
  }

  function Join(parts: seq<string>, sep: string): string
    decreases |parts|
  {
    if |parts| == 0 then ""
    else if |parts| == 1 then parts[0]
    else parts[0] + sep + Join(parts[1..], sep)
  }

  lemma JoinExtendHead(a: string, b: string, t: seq<string>, sep: string)
    ensures Join([a + b] + t, sep) == a + Join([b] + t, sep)
  {
    if |t| > 0 {
      assert ([a + b] + t)[1..] == t;
      assert ([b] + t)[1..] == t;
    }
  }

  /** Joining the pieces with the delimiter gives back the string. */
  lemma {:induction false} JoinPieces(s: string, c: char)
    ensures Join(Pieces(s, c), [c]) == s
    decreases |s|
  {
    if |s| > 0 {
      var rest := Pieces(s[1..], c);
      JoinPieces(s[1..], c);
      if s[0] == c {
        assert ([""] + rest)[1..] == rest;
      } else {
        calc {
          Join(Pieces(s, c), [c]);
          Join([[s[0]] + rest[0]] + rest[1..], [c]);
          { JoinExtendHead([s[0]], rest[0], rest[1..], [c]); }
          [s[0]] + Join([rest[0]] + rest[1..], [c]);
          { assert [rest[0]] + rest[1..] == rest; }
          [s[0]] + s[1..];
        }
        assert [s[0]] + s[1..] == s;
      }
    }
  }

  /** No piece contains the delimiter. */
  lemma {:induction false} PiecesFree(s: string, c: char)
    ensures forall p :: p in Pieces(s, c) ==> c !in p
    decreases |s|
  {
    if |s| > 0 {
      PiecesFree(s[1..], c);
      var rest := Pieces(s[1..], c);
      if s[0] != c {
        assert c !in rest[0];
        assert c !in [s[0]] + rest[0];
      }
    }
  }

  lemma {:induction false} PiecesSplitFirst(a: string, r: string, c: char)
    requires c !in a
    ensures Pieces(a + [c] + r, c) == [a] + Pieces(r, c)
    ensures Pieces(a, c) == [a]
    decreases |a|
  {
    if |a| > 0 {
      PiecesSplitFirst(a[1..], r, c);
      assert (a + [c] + r)[1..] == a[1..] + [c] + r;
      assert [a[0]] + a[1..] == a;
    } else {
      assert a + [c] + r == [c] + r;
      assert ([c] + r)[1..] == r;
    }
  }

  /** Splitting names joined by a delimiter none of them holds gives the names back. */
  lemma {:induction false} JoinSplit(names: seq<string>, c: char)
    requires |names| > 0
    requires forall i :: 0 <= i < |names| ==> c !in names[i]
    ensures Pieces(Join(names, [c]), c) == names
    decreases |names|
  {
    if |names| == 1 {
      PiecesSplitFirst(names[0], "", c);
    } else {
      JoinSplit(names[1..], c);
      PiecesSplitFirst(names[0], Join(names[1..], [c]), c);
      assert [names[0]] + names[1..] == names;
    }
  }

  lemma JoinHasSep(names: seq<string>, c: char)
    requires |names| > 1
    ensures c in Join(names, [c])
  {
    var j := Join(names, [c]);
    assert j == names[0] + [c] + Join(names[1..], [c]);
    assert j[|names[0]|] == c;
  }

  function DropTrailingEmpty(ps: seq<string>): (r: seq<string>)
    ensures |r| <= |ps| && r == ps[..|r|]
    ensures |r| > 0 ==> r[|r| - 1] != ""
    ensures forall k :: |r| <= k < |ps| ==> ps[k] == ""
  {
    if |ps| > 0 && ps[|ps| - 1] == "" then DropTrailingEmpty(ps[..|ps| - 1]) else ps
  }

  /** String.split(regex) for a regex matching exactly the character `c`:
    * without a match the whole input, otherwise the pieces with trailing
    * empty ones removed. */
  function JavaSplit(s: string, c: char): (r: seq<string>)
    ensures forall p :: p in r ==> c !in p
  {
    if c !in s then [s]
    else
      PiecesFree(s, c);
      DropTrailingEmpty(Pieces(s, c))
  }

  /** String.replace(target, replacement): every non-overlapping occurrence,
    * scanning from the left. */
  function Replace(s: string, target: string, repl: string): string
    requires |target| > 0
    decreases |s|
  {
    if |s| < |target| then s
    else if s[..|target|] == target then repl + Replace(s[|target|..], target, repl)
    else [s[0]] + Replace(s[1..], target, repl)
  }

  /** A text without the target's first character is left as it is. */
  lemma {:induction false} ReplaceAbsent(s: string, target: string, repl: string)
    requires |target| > 0 && target[0] !in s
    ensures Replace(s, target, repl) == s
    decreases |s|
  {
    if |s| >= |target| {
      assert s[..|target|][0] == s[0];
      ReplaceAbsent(s[1..], target, repl);
      assert [s[0]] + s[1..] == s;
    }
  }

  /** A leading occurrence is replaced, and the rest is replaced on its own. */
  lemma ReplaceLeading(target: string, s: string, repl: string)
    requires |target| > 0
    ensures Replace(target + s, target, repl) == repl + Replace(s, target, repl)
  {
    assert (target + s)[..|target|] == target;
    assert (target + s)[|target|..] == s;
  }

  lemma {:induction false} ReplaceCharRemovesIt(s: string, c: char, d: char)
    requires c != d
    ensures c !in Replace(s, [c], [d])
    decreases |s|
  {
    if |s| >= 1 {
      ReplaceCharRemovesIt(s[1..], c, d);
      if s[..1] != [c] {
        assert s[0] != c;
      }
    }
  }

  /** String.split undoes String.join for names free of the delimiter whose
    * last one is not empty. */
  lemma JavaSplitJoin(names: seq<string>, c: char)
    requires |names| > 0 && names[|names| - 1] != ""
    requires forall i :: 0 <= i < |names| ==> c !in names[i]
    ensures JavaSplit(Join(names, [c]), c) == names
  {
    var p := Join(names, [c]);
    JoinSplit(names, c);
    if c !in p {
      assert |names| == 1 by {
        if |names| > 1 {
          JoinHasSep(names, c);
        }
      }
      assert JavaSplit(p, c) == [p] == names;
    } else {
      assert DropTrailingEmpty(names) == names;
    }
  }

  // ----- trim / blank -------------------------------------------------------

  function TrimStart(s: string): (r: string)
    ensures |r| <= |s| && r == s[|s| - |r|..]
    ensures |r| > 0 ==> r[0] > ' '
    ensures forall i :: 0 <= i < |s| - |r| ==> s[i] <= ' '
    decreases |s|
  {
    if |s| > 0 && s[0] <= ' ' then TrimStart(s[1..]) else s
  }

  function TrimEnd(s: string): (r: string)
    ensures |r| <= |s| && r == s[..|r|]
    ensures |r| > 0 ==> r[|r| - 1] > ' '
    ensures forall i :: |r| <= i < |s| ==> s[i] <= ' '
    decreases |s|
  {
    if |s| > 0 && s[|s| - 1] <= ' ' then TrimEnd(s[..|s| - 1]) else s
  }

  /** String.trim: strips every leading and trailing character up to ' '. */
  function Trim(s: string): string {
    TrimEnd(TrimStart(s))
  }

  /** Trimming twice is trimming once. */
  lemma TrimIdempotent(s: string)
    ensures Trim(Trim(s)) == Trim(s)
  {
    var t := Trim(s);
    assert TrimStart(t) == t;
    assert TrimEnd(t) == t;
  }

  /** A text trims to nothing exactly when every character is at most ' '. */
  lemma TrimEmptyIff(s: string)
    ensures Trim(s) == "" <==> forall i :: 0 <= i < |s| ==> s[i] <= ' '
  {
    var t := TrimStart(s);
    assert Trim(s) == "" ==> t == "";
  }

  /** Character.isWhitespace. */
  predicate IsWhitespace(c: char) {
    c == ' ' || ('\t' <= c <= '\r') || ('\U{1C}' <= c <= '\U{1F}')
    || c == '\U{1680}' || ('\U{2000}' <= c <= '\U{2006}') || ('\U{2008}' <= c <= '\U{200A}')
    || c == '\U{2028}' || c == '\U{2029}' || c == '\U{205F}' || c == '\U{3000}'
  }

  /** String.isBlank / StringUtils.isBlank on a non-null string. */
  predicate IsBlank(s: string) {
    forall i :: 0 <= i < |s| ==> IsWhitespace(s[i])
  }

  /** StringUtils.isEmpty: null or "". */
  predicate IsEmpty(s: Option<string>) {
    s.None? || s.value == ""
  }

  /** StringUtils.isNotBlank. */
  predicate IsNotBlank(s: Option<string>) {
    s.Some? && !IsBlank(s.value)
  }

  /** Regex \s (without UNICODE_CHARACTER_CLASS). */
  predicate IsRegexSpace(c: char) {
    c == ' ' || c == '\t' || c == '\n' || c == '\U{0B}' || c == '\U{0C}' || c == '\r'
  }

  // ----- digits -------------------------------------------------------------

  predicate IsDigit(c: char) {
    '0' <= c <= '9'
  }

  /** Regex \d+. */
  predicate IsDigits(s: string) {
    |s| > 0 && forall i :: 0 <= i < |s| ==> IsDigit(s[i])
  }

  function DigitChar(d: nat): (c: char)
    requires d < 10
    ensures IsDigit(c)
  {
    ('0' as int + d) as char
  }

  /** Decimal digits of a natural number, as Integer.toString writes them. */
  function NatToString(n: nat): (r: string)
    ensures IsDigits(r)
    ensures |r| > 1 ==> r[0] != '0'
    decreases n
  {
    if n < 10 then [DigitChar(n)] else NatToString(n / 10) + [DigitChar(n % 10)]
  }

  function DigitsValue(s: string): nat
    requires forall i :: 0 <= i < |s| ==> IsDigit(s[i])
    decreases |s|
  {
    if |s| == 0 then 0
    else
      assert IsDigit(s[|s| - 1]);
      DigitsValue(s[..|s| - 1]) * 10 + (s[|s| - 1] as int - '0' as int)
  }

  /** Reading the decimal digits back gives the number. */
  lemma {:induction false} DigitsValueNatToString(n: nat)
    ensures DigitsValue(NatToString(n)) == n
    decreases n
  {
    if n >= 10 {
      var r := NatToString(n);
      DigitsValueNatToString(n / 10);
      assert r[..|r| - 1] == NatToString(n / 10);
    }
  }

  /** Digits that do not start with '0' stand for a positive number. */
  lemma {:induction false} DigitsPositive(s: string)
    requires IsDigits(s) && s[0] != '0'
    ensures DigitsValue(s) >= 1
    decreases |s|
  {
    if |s| > 1 {
      var init := s[..|s| - 1];
      assert init[0] == s[0];
      DigitsPositive(init);
    }
  }

  /** Digits without a leading zero (or the single "0") are exactly how
    * Integer.toString writes their value. */
  lemma {:induction false} CanonicalDigits(s: string)
    requires IsDigits(s) && (s == "0" || s[0] != '0')
    ensures NatToString(DigitsValue(s)) == s
    decreases |s|
  {
    var init := s[..|s| - 1];
    var d := s[|s| - 1] as int - '0' as int;
    if |s| == 1 {
      assert DigitsValue(s) == d;
      assert [DigitChar(d)] == s;
    } else {
      assert init[0] == s[0];
      CanonicalDigits(init);
      DigitsPositive(init);
      var n := DigitsValue(s);
      assert n == DigitsValue(init) * 10 + d;
      assert n / 10 == DigitsValue(init) && n % 10 == d;
      assert init + [s[|s| - 1]] == s;
    }
  }

  /** String.valueOf(int). */
  function IntToString(i: int): string {
    if i < 0 then "-" + NatToString(-i) else NatToString(i)
  }

  /** Integer/Long parsing of an optionally signed decimal, None when malformed. */
  function ParseInt(s: string): Option<int> {
    if |s| > 1 && (s[0] == '-' || s[0] == '+') && IsDigits(s[1..]) then
      Some(if s[0] == '-' then -(DigitsValue(s[1..]) as int) else DigitsValue(s[1..]))
    else if IsDigits(s) then Some(DigitsValue(s))
    else None
  }

  lemma ParseIntToString(i: int)
    ensures ParseInt(IntToString(i)) == Some(i)
  {
    if i < 0 {
      var d := NatToString(-i);
      assert ("-" + d)[1..] == d;
      DigitsValueNatToString(-i);
    } else {
      DigitsValueNatToString(i);
    }
  }

  // ----- case-insensitive comparisons (ASCII folding) -------------------------

  function Lower(c: char): char {
    if 'A' <= c <= 'Z' then (c as int + 32) as char else c
  }

  function Upper(c: char): char {
    if 'a' <= c <= 'z' then (c as int - 32) as char else c
  }

  function UpperAll(s: string): (r: string)
    ensures |r| == |s|
    ensures forall i :: 0 <= i < |s| ==> r[i] == Upper(s[i])
    decreases |s|
  {
    if |s| == 0 then "" else [Upper(s[0])] + UpperAll(s[1..])
  }

  /** String.equalsIgnoreCase. */
  predicate EqualsIgnoreCase(a: string, b: string) {
    |a| == |b| && forall i :: 0 <= i < |a| ==> Lower(a[i]) == Lower(b[i])
  }

  /** String.compareToIgnoreCase: the first differing folded characters
    * decide, otherwise the lengths. */
  function CompareIgnoreCase(a: string, b: string): int
    decreases |a|
  {
    if |a| == 0 || |b| == 0 then |a| - |b|
    else if Lower(a[0]) != Lower(b[0]) then Lower(a[0]) as int - Lower(b[0]) as int
    else CompareIgnoreCase(a[1..], b[1..])
  }

  lemma {:induction false} CompareIgnoreCaseZero(a: string, b: string)
    ensures CompareIgnoreCase(a, b) == 0 <==> EqualsIgnoreCase(a, b)
    decreases |a|
  {
    if |a| > 0 && |b| > 0 && Lower(a[0]) == Lower(b[0]) {
      CompareIgnoreCaseZero(a[1..], b[1..]);
      if EqualsIgnoreCase(a[1..], b[1..]) {
        forall i | 0 <= i < |a| ensures Lower(a[i]) == Lower(b[i]) {
          if i > 0 {
            assert a[i] == a[1..][i - 1] && b[i] == b[1..][i - 1];
          }
        }
      }
      if EqualsIgnoreCase(a, b) {
        forall i | 0 <= i < |a| - 1 ensures Lower(a[1..][i]) == Lower(b[1..][i]) {
          assert a[1..][i] == a[i + 1] && b[1..][i] == b[i + 1];
        }
      }
    } else if |a| > 0 && |b| > 0 {
      assert !EqualsIgnoreCase(a, b) by {
        assert Lower(a[0]) != Lower(b[0]);
      }
    }
  }

  lemma {:induction false} CompareIgnoreCaseAntisymmetric(a: string, b: string)
    ensures CompareIgnoreCase(a, b) == -CompareIgnoreCase(b, a)
    decreases |a|
  {
    if |a| > 0 && |b| > 0 && Lower(a[0]) == Lower(b[0]) {
      CompareIgnoreCaseAntisymmetric(a[1..], b[1..]);
    }
  }
}
