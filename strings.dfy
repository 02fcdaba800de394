/** The Python string operations the core relies on (`find`, `in`, `strip`,
    `split`, `lower`, `replace`, decimal digits and `sorted`), each with the
    contract that says what it computes. */
module Strings {
  import opened Base

  // ---------------------------------------------------------------- characters

  /** `str.isspace()` for one character: ASCII blanks and controls 9-13 and
      28-31, and the Unicode spaces Python also strips. */
  predicate IsSpace(c: char) {
    c == ' ' || ('\t' <= c <= '\r') || ('\U{1C}' <= c <= '\U{1F}')
    || c == '\U{85}' || c == '\U{A0}' || c == '\U{1680}'
    || ('\U{2000}' <= c <= '\U{200A}') || c == '\U{2028}' || c == '\U{2029}'
    || c == '\U{202F}' || c == '\U{205F}' || c == '\U{3000}'
  }

  predicate IsDigit(c: char) { '0' <= c <= '9' }

  predicate IsAsciiLetter(c: char) { ('a' <= c <= 'z') || ('A' <= c <= 'Z') }

  predicate AllDigits(s: string) { forall i :: 0 <= i < |s| ==> IsDigit(s[i]) }

  predicate NoSpace(s: string) { forall i :: 0 <= i < |s| ==> !IsSpace(s[i]) }

  // ---------------------------------------------------------------- prefixes and search

  predicate IsPrefix(p: string, s: string) { |p| <= |s| && s[..|p|] == p }

  predicate IsSuffix(p: string, s: string) { |p| <= |s| && s[|s| - |p|..] == p }

  predicate OccursAt(sub: string, s: string, i: int) {
    0 <= i && i + |sub| <= |s| && s[i..i + |sub|] == sub
  }

  /** `s.find(sub, i)`: the first position from `i` on where `sub` occurs, or -1. */
  function IndexFrom(s: string, sub: string, i: nat): (r: int)
    decreases |s| + 1 - i
    ensures r == -1 || (i <= r && OccursAt(sub, s, r))
    ensures r == -1 ==> forall j :: i <= j ==> !OccursAt(sub, s, j)
    ensures r >= 0 ==> forall j :: i <= j < r ==> !OccursAt(sub, s, j)
  {
    if i + |sub| > |s| then -1
    else if s[i..i + |sub|] == sub then i
    else IndexFrom(s, sub, i + 1)
  }

  /** The first occurrence from i on is the one at p. */
  lemma {:induction false} IndexFromIs(s: string, sub: string, i: nat, p: nat)
    requires i <= p && OccursAt(sub, s, p)
    requires forall j :: i <= j < p ==> !OccursAt(sub, s, j)
    ensures IndexFrom(s, sub, i) == p
    decreases p - i
  {
    if i < p {
      assert !OccursAt(sub, s, i);
      IndexFromIs(s, sub, i + 1, p);
    }
  }

  function Find(s: string, sub: string): int {
    IndexFrom(s, sub, 0)
  }

  /** Python's `sub in s`. */
  predicate Contains(sub: string, s: string) {
    Find(s, sub) >= 0
  }

  lemma ContainsIff(sub: string, s: string)
    ensures Contains(sub, s) <==> exists j :: OccursAt(sub, s, j)
  {
    if exists j :: OccursAt(sub, s, j) {
      var j :| OccursAt(sub, s, j);
      assert 0 <= j;
    }
  }

  lemma ContainsSelf(s: string)
    ensures Contains(s, s)
  {
    assert OccursAt(s, s, 0);
    ContainsIff(s, s);
  }

  lemma ContainsEmpty(s: string)
    ensures Contains("", s)
  {
    assert OccursAt("", s, 0);
    ContainsIff("", s);
  }

  // ---------------------------------------------------------------- strip

  function StripLeft(s: string): (r: string)
    ensures |r| <= |s| && r == s[|s| - |r|..]
  {
    if s != [] && IsSpace(s[0]) then StripLeft(s[1..]) else s
  }

  function StripRight(s: string): (r: string)
    ensures |r| <= |s| && r == s[..|r|]
  {
    if s != [] && IsSpace(s[|s| - 1]) then StripRight(s[..|s| - 1]) else s
  }

  /** `s.strip()`: drop leading and trailing whitespace. */
  function Strip(s: string): string {
    StripRight(StripLeft(s))
  }

  /** `lstrip` removes exactly the leading whitespace. */
  lemma {:induction false} StripLeftSpec(s: string)
    ensures StripLeft(s) == [] || !IsSpace(StripLeft(s)[0])
    ensures forall k :: 0 <= k < |s| - |StripLeft(s)| ==> IsSpace(s[k])
  {
    if s != [] && IsSpace(s[0]) {
      StripLeftSpec(s[1..]);
      assert forall k :: 1 <= k < |s| - |StripLeft(s)| ==> s[k] == s[1..][k - 1];
    }
  }

  /** `rstrip` removes exactly the trailing whitespace. */
  lemma {:induction false} StripRightSpec(s: string)
    ensures StripRight(s) == [] || !IsSpace(StripRight(s)[|StripRight(s)| - 1])
    ensures forall k :: |StripRight(s)| <= k < |s| ==> IsSpace(s[k])
  {
    if s != [] && IsSpace(s[|s| - 1]) {
      StripRightSpec(s[..|s| - 1]);
      assert forall k :: |StripRight(s)| <= k < |s| - 1 ==> s[k] == s[..|s| - 1][k];
    }
  }

  /** The stripped text has no whitespace at either end, and it is blank
      exactly when every character is whitespace. */
  lemma StripSpec(s: string)
    ensures Strip(s) == [] || (!IsSpace(Strip(s)[0]) && !IsSpace(Strip(s)[|Strip(s)| - 1]))
    ensures Strip(s) == [] <==> forall k :: 0 <= k < |s| ==> IsSpace(s[k])
  {
    var l := StripLeft(s);
    StripLeftSpec(s);
    StripRightSpec(l);
    if Strip(s) != [] {
      assert Strip(s)[0] == l[0];
    }
    if Strip(s) == [] {
      assert l == [];
    }
  }

  // ---------------------------------------------------------------- split and join

  /** `sep.join(parts)`. */
  function Join(parts: seq<string>, sep: string): string {
    if |parts| == 0 then ""
    else if |parts| == 1 then parts[0]
    else parts[0] + sep + Join(parts[1..], sep)
  }

  /** Joining two non-empty lists puts one separator between their joins. */
  lemma {:induction false} JoinAppend(a: seq<string>, b: seq<string>, sep: string)
    requires a != [] && b != []
    ensures Join(a + b, sep) == Join(a, sep) + sep + Join(b, sep)
  {
    if |a| == 1 {
      assert (a + b)[1..] == b;
    } else {
      assert (a + b)[1..] == a[1..] + b;
      JoinAppend(a[1..], b, sep);
    }
  }

  /** Appending one part adds the separator and the part. */
  lemma JoinAppendOne(a: seq<string>, x: string, sep: string)
    requires a != []
    ensures Join(a + [x], sep) == Join(a, sep) + sep + x
  {
    JoinAppend(a, [x], sep);
  }

  /** The join of a non-empty list starts with the join of any prefix. */
  lemma JoinPrefix(a: seq<string>, b: seq<string>, sep: string)
    requires a != []
    ensures IsPrefix(Join(a, sep), Join(a + b, sep))
  {
    if b == [] {
      assert a + b == a;
    } else {
      JoinAppend(a, b, sep);
    }
  }

  /** The join of a list ends with its last element. */
  lemma JoinLast(a: seq<string>, x: string, sep: string)
    ensures IsSuffix(x, Join(a + [x], sep))
  {
    if a == [] {
      assert a + [x] == [x];
    } else {
      JoinAppend(a, [x], sep);
    }
  }

  /** The join of a list ends with its last element, however the list is
      grouped. */
  lemma JoinEndsWith(a: seq<string>, b: seq<string>, x: string, sep: string)
    ensures IsSuffix(x, Join(a + (b + [x]), sep))
  {
    assert a + (b + [x]) == (a + b) + [x];
    JoinLast(a + b, x, sep);
  }

  /** A suffix of a suffix is a suffix. */
  lemma SuffixOfSuffix(p: string, q: string, s: string)
    requires IsSuffix(p, q) && IsSuffix(q, s)
    ensures IsSuffix(p, s)
  {
    assert s[|s| - |p|..] == s[|s| - |q|..][|q| - |p|..];
  }

  /** `s.split(c)` for a one-character separator. */
  function SplitOn(s: string, c: char): (r: seq<string>)
    ensures |r| >= 1
  {
    if s == [] then [""]
    else
      var rest := SplitOn(s[1..], c);
      if s[0] == c then [""] + rest else [[s[0]] + rest[0]] + rest[1..]
  }

  /** No part contains the separator. */
  lemma {:induction false} SplitOnParts(s: string, c: char)
    ensures forall k :: 0 <= k < |SplitOn(s, c)| ==> c !in SplitOn(s, c)[k]
  {
    if s != [] {
      SplitOnParts(s[1..], c);
    }
  }

  /** Splitting and re-joining with the same separator gives the text back. */
  lemma {:induction false} JoinSplitOn(s: string, c: char)
    ensures Join(SplitOn(s, c), [c]) == s
  {
    if s != [] {
      var rest := SplitOn(s[1..], c);
      JoinSplitOn(s[1..], c);
      if s[0] == c {
        assert SplitOn(s, c) == [""] + rest;
        JoinAppend([""], rest, [c]);
        assert s == [s[0]] + s[1..];
      } else {
        var parts := [[s[0]] + rest[0]] + rest[1..];
        assert SplitOn(s, c) == parts;
        if |rest| == 1 {
          assert Join(parts, [c]) == [s[0]] + rest[0];
          assert Join(rest, [c]) == rest[0];
        } else {
          assert parts[1..] == rest[1..];
          assert Join(parts, [c]) == [s[0]] + rest[0] + [c] + Join(rest[1..], [c]);
          assert Join(rest, [c]) == rest[0] + [c] + Join(rest[1..], [c]);
        }
        assert s == [s[0]] + s[1..];
      }
    }
  }

  /** The end of the maximal run of non-whitespace characters starting at i. */
  function WordEnd(s: string, i: nat): (j: nat)
    requires i <= |s|
    decreases |s| - i
    ensures i <= j <= |s|
    ensures i < |s| && !IsSpace(s[i]) ==> j > i
  {
    if i < |s| && !IsSpace(s[i]) then WordEnd(s, i + 1) else i
  }

  lemma {:induction false} WordEndSpec(s: string, i: nat)
    requires i <= |s|
    decreases |s| - i
    ensures WordEnd(s, i) == |s| || IsSpace(s[WordEnd(s, i)])
    ensures forall k :: i <= k < WordEnd(s, i) ==> !IsSpace(s[k])
  {
    if i < |s| && !IsSpace(s[i]) {
      WordEndSpec(s, i + 1);
    }
  }

  /** A blank-free word followed by a blank or the end is where the run ends. */
  lemma {:induction false} WordEndAt(s: string, v: nat, word: string)
    requires v + |word| <= |s| && s[v..v + |word|] == word && NoSpace(word)
    requires v + |word| == |s| || IsSpace(s[v + |word|])
    decreases |word|
    ensures WordEnd(s, v) == v + |word|
  {
    if word != [] {
      assert s[v] == word[0];
      assert s[v + 1..v + |word|] == word[1..];
      WordEndAt(s, v + 1, word[1..]);
    }
  }

  /** The end of the run of whitespace characters starting at i. */
  function SpaceEnd(s: string, i: nat): (j: nat)
    requires i <= |s|
    decreases |s| - i
    ensures i <= j <= |s| && (j == |s| || !IsSpace(s[j]))
    ensures forall k :: i <= k < j ==> IsSpace(s[k])
  {
    if i < |s| && IsSpace(s[i]) then SpaceEnd(s, i + 1) else i
  }

  predicate IsToken(t: string) { t != [] && NoSpace(t) }

  /** `s[i:].split()`: skip whitespace, take a maximal word, repeat. */
  function SplitWsFrom(s: string, i: nat): seq<string>
    requires i <= |s|
    decreases |s| - i
  {
    if i == |s| then []
    else if IsSpace(s[i]) then SplitWsFrom(s, i + 1)
    else
      var j := WordEnd(s, i);
      [s[i..j]] + SplitWsFrom(s, j)
  }

  /** `s.split()` with no argument. */
  function SplitWs(s: string): seq<string> {
    SplitWsFrom(s, 0)
  }

  /** `split()` from i: the word after the whitespace run, then the rest. */
  lemma {:induction false} SplitWsAt(s: string, i: nat)
    requires i <= |s|
    decreases |s| - i
    ensures var a := SpaceEnd(s, i);
      SplitWsFrom(s, i) == if a == |s| then [] else [s[a..WordEnd(s, a)]] + SplitWsFrom(s, WordEnd(s, a))
  {
    if i < |s| && IsSpace(s[i]) {
      SplitWsAt(s, i + 1);
    }
  }

  /** Every field of `split()` is non-empty and free of whitespace. */
  lemma {:induction false} SplitWsTokens(s: string, i: nat)
    requires i <= |s|
    decreases |s| - i
    ensures forall k :: 0 <= k < |SplitWsFrom(s, i)| ==> IsToken(SplitWsFrom(s, i)[k])
  {
    if i < |s| {
      if IsSpace(s[i]) {
        SplitWsTokens(s, i + 1);
      } else {
        var j := WordEnd(s, i);
        WordEndSpec(s, i);
        SplitWsTokens(s, j);
        assert IsToken(s[i..j]) by {
          assert forall k :: 0 <= k < j - i ==> s[i..j][k] == s[i + k];
        }
      }
    }
  }

  /** A word alone splits to itself. */
  lemma SplitWsWord(s: string)
    requires IsToken(s)
    ensures SplitWs(s) == [s]
  {
    WordEndIs(s, 0);
    assert !IsSpace(s[0]);
    assert SplitWsFrom(s, |s|) == [];
    assert s[0..|s|] == s;
  }

  /** A word that ends at a whitespace character ends there. */
  lemma {:induction false} WordEndBefore(s: string, i: nat, j: nat)
    requires i <= j < |s| && IsSpace(s[j]) && forall k :: i <= k < j ==> !IsSpace(s[k])
    ensures WordEnd(s, i) == j
    decreases j - i
  {
    if i < j {
      WordEndBefore(s, i + 1, j);
    }
  }

  lemma {:induction false} WordEndIs(s: string, i: nat)
    requires i <= |s| && forall k :: i <= k < |s| ==> !IsSpace(s[k])
    ensures WordEnd(s, i) == |s|
    decreases |s| - i
  {
    if i < |s| {
      WordEndIs(s, i + 1);
    }
  }

  /** `s.split()[0] if s.split() else ""`. */
  function FirstToken(s: string): string {
    var t := SplitWs(s);
    if t == [] then "" else t[0]
  }

  // ---------------------------------------------------------------- case and replacement

  /** `str.lower()` on ASCII letters. */
  function LowerChar(c: char): char {
    if 'A' <= c <= 'Z' then (c as int + 32) as char else c
  }

  function Lower(s: string): string {
    seq(|s|, i requires 0 <= i < |s| => LowerChar(s[i]))
  }

  /** `s.replace(c, rep)` for a one-character pattern. */
  function ReplaceChar(s: string, c: char, rep: string): (r: string)
    ensures c !in rep ==> c !in r
  {
    if s == [] then [] else (if s[0] == c then rep else [s[0]]) + ReplaceChar(s[1..], c, rep)
  }

  lemma {:induction false} ReplaceCharAbsent(s: string, c: char, rep: string)
    requires c !in s
    ensures ReplaceChar(s, c, rep) == s
  {
    if s != [] {
      assert c !in s[1..];
      ReplaceCharAbsent(s[1..], c, rep);
      assert [s[0]] + s[1..] == s;
    }
  }

  lemma ReplaceCharSingle(x: char, c: char, rep: string)
    ensures ReplaceChar([x], c, rep) == if x == c then rep else [x]
  {
    assert [x][1..] == [];
  }

  /** Replacing a character by one character keeps every other position. */
  lemma {:induction false} ReplaceCharPointwise(s: string, c: char, d: char)
    ensures |ReplaceChar(s, c, [d])| == |s|
    ensures forall i :: 0 <= i < |s| ==> ReplaceChar(s, c, [d])[i] == if s[i] == c then d else s[i]
  {
    if s != [] {
      ReplaceCharPointwise(s[1..], c, d);
      var r := ReplaceChar(s, c, [d]);
      assert r == [if s[0] == c then d else s[0]] + ReplaceChar(s[1..], c, [d]);
      forall i | 1 <= i < |s| ensures r[i] == if s[i] == c then d else s[i] {
        assert s[i] == s[1..][i - 1];
      }
    }
  }

  lemma {:induction false} ReplaceCharAppend(a: string, b: string, c: char, rep: string)
    ensures ReplaceChar(a + b, c, rep) == ReplaceChar(a, c, rep) + ReplaceChar(b, c, rep)
  {
    if a != [] {
      assert (a + b)[0] == a[0];
      assert (a + b)[1..] == a[1..] + b;
      ReplaceCharAppend(a[1..], b, c, rep);
    } else {
      assert a + b == b;
    }
  }

  /** Successive `replace` calls, one per (character, replacement) rule,
      in the order of the rules. */
  function ReplaceAll(s: string, rules: seq<(char, string)>): string
    decreases |rules|
  {
    if rules == [] then s else ReplaceAll(ReplaceChar(s, rules[0].0, rules[0].1), rules[1..])
  }

  lemma {:induction false} ReplaceAllAppend(a: string, b: string, rules: seq<(char, string)>)
    ensures ReplaceAll(a + b, rules) == ReplaceAll(a, rules) + ReplaceAll(b, rules)
    decreases |rules|
  {
    if rules != [] {
      ReplaceCharAppend(a, b, rules[0].0, rules[0].1);
      ReplaceAllAppend(ReplaceChar(a, rules[0].0, rules[0].1), ReplaceChar(b, rules[0].0, rules[0].1), rules[1..]);
    }
  }

  /** Each character replaced by its image under f, the images concatenated. */
  function ConcatMap(s: string, f: char -> string): string {
    if s == [] then "" else f(s[0]) + ConcatMap(s[1..], f)
  }

  /** Rules that act on each single character as f does act on any string
      character by character. */
  lemma {:induction false} ReplaceAllCharwise(s: string, rules: seq<(char, string)>, f: char -> string)
    requires forall c :: ReplaceAll([c], rules) == f(c)
    ensures ReplaceAll(s, rules) == ConcatMap(s, f)
  {
    if s != [] {
      assert s == [s[0]] + s[1..];
      ReplaceAllAppend([s[0]], s[1..], rules);
      assert ReplaceAll([s[0]], rules) == f(s[0]);
      ReplaceAllCharwise(s[1..], rules, f);
    } else {
      ReplaceAllKeeps(s, rules);
    }
  }

  /** Rules whose characters do not occur leave a string alone. */
  lemma {:induction false} ReplaceAllKeeps(s: string, rules: seq<(char, string)>)
    requires forall j :: 0 <= j < |rules| ==> rules[j].0 !in s
    ensures ReplaceAll(s, rules) == s
    decreases |rules|
  {
    if rules != [] {
      ReplaceCharAbsent(s, rules[0].0, rules[0].1);
      assert forall j :: 0 <= j < |rules| - 1 ==> rules[1..][j] == rules[j + 1];
      ReplaceAllKeeps(s, rules[1..]);
    }
  }

  /** A single character is rewritten by the first rule for it, when the
      later rules leave that replacement alone. */
  lemma {:induction false} ReplaceAllChar(x: char, rules: seq<(char, string)>, i: nat)
    requires i < |rules| && rules[i].0 == x
    requires forall j :: 0 <= j < i ==> rules[j].0 != x
    requires forall j :: i < j < |rules| ==> rules[j].0 !in rules[i].1
    ensures ReplaceAll([x], rules) == rules[i].1
    decreases i
  {
    ReplaceCharSingle(x, rules[0].0, rules[0].1);
    assert forall j :: 0 <= j < |rules| - 1 ==> rules[1..][j] == rules[j + 1];
    if i == 0 {
      ReplaceAllKeeps(rules[0].1, rules[1..]);
    } else {
      ReplaceAllChar(x, rules[1..], i - 1);
    }
  }

  // ---------------------------------------------------------------- decimal numbers

  function DigitVal(c: char): nat
    requires IsDigit(c)
  {
    c as int - '0' as int
  }

  function DigitChar(d: nat): (c: char)
    requires d < 10
    ensures IsDigit(c) && DigitVal(c) == d
  {
    ('0' as int + d) as char
  }

  /** The value of a run of decimal digits, most significant first. */
  function DigitsValue(ds: string): nat
    requires AllDigits(ds)
  {
    if ds == [] then 0 else DigitsValue(ds[..|ds| - 1]) * 10 + DigitVal(ds[|ds| - 1])
  }

  /** `str(n)` for a natural number. */
  function NatToString(n: nat): string {
    if n < 10 then [DigitChar(n)] else NatToString(n / 10) + [DigitChar(n % 10)]
  }

  /** `str(i)` for any integer. */
  function IntToString(i: int): string {
    if i < 0 then "-" + NatToString(-i) else NatToString(i)
  }

  lemma {:induction false} NatToStringDigits(n: nat)
    ensures NatToString(n) != [] && AllDigits(NatToString(n))
    ensures DigitsValue(NatToString(n)) == n
  {
    if n >= 10 {
      NatToStringDigits(n / 10);
      var s := NatToString(n);
      assert s[..|s| - 1] == NatToString(n / 10);
    }
  }

  /** The end of the maximal run of digits that starts at `i`. */
  function DigitRunEnd(s: string, i: nat): (j: nat)
    requires i <= |s|
    decreases |s| - i
    ensures i <= j <= |s|
    ensures AllDigits(s[i..j])
    ensures j == |s| || !IsDigit(s[j])
  {
    if i < |s| && IsDigit(s[i]) then
      var j := DigitRunEnd(s, i + 1);
      assert s[i..j] == [s[i]] + s[i + 1..j];
      j
    else i
  }

  lemma {:induction false} DigitRunEndIs(s: string, i: nat, j: nat)
    requires i <= j <= |s|
    requires AllDigits(s[i..j])
    requires j == |s| || !IsDigit(s[j])
    ensures DigitRunEnd(s, i) == j
    decreases j - i
  {
    if i < j {
      assert s[i..j][0] == s[i];
      assert s[i + 1..j] == s[i..j][1..];
      DigitRunEndIs(s, i + 1, j);
    }
  }

  /** A positive-length digit run at `i`: its value and its end. */
  function ParseNatAt(s: string, i: nat): (r: Option<(nat, nat)>)
    requires i <= |s|
    ensures r.Some? ==> i < r.value.1 <= |s|
  {
    var j := DigitRunEnd(s, i);
    if j == i then None else Some((DigitsValue(s[i..j]), j))
  }

  /** A digit run from i to a non-digit at e reads as its value. */
  lemma ParseNatAtIs(s: string, i: nat, e: nat)
    requires i < e <= |s| && AllDigits(s[i..e]) && (e == |s| || !IsDigit(s[e]))
    ensures ParseNatAt(s, i) == Some((DigitsValue(s[i..e]), e))
  {
    DigitRunEndIs(s, i, e);
  }

  /** A decimal rendering followed by a non-digit reads back as the same number. */
  lemma ParseNatAtString(s: string, i: nat, n: nat)
    requires i + |NatToString(n)| <= |s|
    requires s[i..i + |NatToString(n)|] == NatToString(n)
    requires i + |NatToString(n)| == |s| || !IsDigit(s[i + |NatToString(n)|])
    ensures ParseNatAt(s, i) == Some((n, i + |NatToString(n)|))
  {
    NatToStringDigits(n);
    DigitRunEndIs(s, i, i + |NatToString(n)|);
  }

  // ---------------------------------------------------------------- ordering

  /** Python's ordering of strings: code points compared from the left, a
      proper prefix first. */
  predicate LexLe(a: string, b: string)
    decreases |a|
  {
    a == [] || (b != [] && (a[0] < b[0] || (a[0] == b[0] && LexLe(a[1..], b[1..]))))
  }

  lemma {:induction false} LexLeTotal(a: string, b: string)
    ensures LexLe(a, b) || LexLe(b, a)
    decreases |a|
  {
    if a != [] && b != [] && a[0] == b[0] {
      LexLeTotal(a[1..], b[1..]);
    }
  }

  lemma {:induction false} LexLeTrans(a: string, b: string, c: string)
    requires LexLe(a, b) && LexLe(b, c)
    ensures LexLe(a, c)
    decreases |a|
  {
    if a != [] && a[0] == b[0] && b[0] == c[0] {
      LexLeTrans(a[1..], b[1..], c[1..]);
    }
  }

  lemma {:induction false} LexLeAntisym(a: string, b: string)
    requires LexLe(a, b) && LexLe(b, a)
    ensures a == b
    decreases |a|
  {
    if a != [] {
      LexLeAntisym(a[1..], b[1..]);
      assert a == [a[0]] + a[1..];
      assert b == [b[0]] + b[1..];
    }
  }

  predicate SortedLex(xs: seq<string>) {
    forall i :: 0 <= i < |xs| - 1 ==> LexLe(xs[i], xs[i + 1])
  }

  function InsertLex(x: string, xs: seq<string>): (r: seq<string>)
    requires SortedLex(xs)
    ensures SortedLex(r)
    ensures multiset(r) == multiset(xs) + multiset{x}
    ensures r != [] && (r[0] == x || (xs != [] && r[0] == xs[0]))
  {
    if xs == [] then [x]
    else if LexLe(x, xs[0]) then [x] + xs
    else
      LexLeTotal(x, xs[0]);
      var t := InsertLex(x, xs[1..]);
      assert xs == [xs[0]] + xs[1..];
      assert SortedLex([xs[0]] + t);
      [xs[0]] + t
  }

  /** `sorted(xs)` on strings: ordered, and a permutation of the input. */
  function SortLex(xs: seq<string>): (r: seq<string>)
    ensures SortedLex(r)
    ensures multiset(r) == multiset(xs)
  {
    if xs == [] then []
    else
      assert xs == [xs[0]] + xs[1..];
      InsertLex(xs[0], SortLex(xs[1..]))
  }
  /** Python's `a or b or ...` on strings: the first non-empty one, or "". */
  function FirstNonEmpty(xs: seq<string>): (r: string)
    ensures r == "" <==> forall k :: 0 <= k < |xs| ==> xs[k] == ""
    ensures r != "" ==> exists k :: 0 <= k < |xs| && xs[k] == r && forall j :: 0 <= j < k ==> xs[j] == ""
  {
    if xs == [] then ""
    else if xs[0] != "" then xs[0]
    else
      var r := FirstNonEmpty(xs[1..]);
      assert forall k :: 1 <= k < |xs| ==> xs[k] == xs[1..][k - 1];
      if r != "" then
        var k :| 0 <= k < |xs[1..]| && xs[1..][k] == r && forall j :: 0 <= j < k ==> xs[1..][j] == "";
        assert xs[k + 1] == r;
        r
      else r
  }
}
