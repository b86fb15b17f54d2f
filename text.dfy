/**
 * The string operations the core relies on from Go's `strings` and
 * `strconv` packages, written out over `seq<char>` with the facts the rest
 * of the model needs proved about them.
 */
module Text {
  import opened Outcomes

  // ---------------------------------------------------------------------
  // Characters

  predicate IsDigit(c: char) {
    '0' <= c <= '9'
  }

  /** RE2's `\s` class: tab, newline, form feed, carriage return, space. */
  predicate IsSpace(c: char) {
    c == '\t' || c == '\n' || c == '\U{000C}' || c == '\r' || c == ' '
  }

  /** ASCII lower-casing of one character. */
  function LowerChar(c: char): (r: char)
    ensures 'A' <= c <= 'Z' ==> r as int == c as int + 32
    ensures !('A' <= c <= 'Z') ==> r == c
  {
    if 'A' <= c <= 'Z' then (c as int + 32) as char else c
  }

  function ToLower(s: string): (r: string)
    ensures |r| == |s|
    ensures forall i :: 0 <= i < |s| ==> r[i] == LowerChar(s[i])
  {
    seq(|s|, i requires 0 <= i < |s| => LowerChar(s[i]))
  }

  predicate NoUpper(s: string) {
    forall i :: 0 <= i < |s| ==> !('A' <= s[i] <= 'Z')
  }

  /** Lower-casing leaves text without upper-case letters alone. */
  lemma {:induction false} ToLowerKeepsNoUpper(s: string)
    requires NoUpper(s)
    ensures ToLower(s) == s
  {
    assert forall i :: 0 <= i < |s| ==> ToLower(s)[i] == s[i];
  }

  // ---------------------------------------------------------------------
  // Prefixes, suffixes, substrings

  predicate HasPrefix(s: string, p: string) {
    |p| <= |s| && s[..|p|] == p
  }

  predicate HasSuffix(s: string, p: string) {
    |p| <= |s| && s[|s| - |p|..] == p
  }

  /** `sub` occurs in `s` starting at index `i`. */
  predicate OccursAt(s: string, sub: string, i: int) {
    0 <= i && i + |sub| <= |s| && s[i..i + |sub|] == sub
  }

  /** strings.Contains, as a left-to-right scan. */
  predicate Contains(s: string, sub: string)
    decreases |s|
  {
    HasPrefix(s, sub) || (|s| > 0 && Contains(s[1..], sub))
  }

  /** The scan finds `sub` exactly when `sub` occurs somewhere in `s`. */
  lemma {:induction false} ContainsIffOccurs(s: string, sub: string)
    ensures Contains(s, sub) <==> exists i :: OccursAt(s, sub, i)
    decreases |s|
  {
    if |s| > 0 {
      ContainsIffOccurs(s[1..], sub);
    }
    if HasPrefix(s, sub) {
      assert OccursAt(s, sub, 0);
    } else if |s| > 0 && Contains(s[1..], sub) {
      var i :| OccursAt(s[1..], sub, i);
      assert s[1..][i..i + |sub|] == s[i + 1..i + 1 + |sub|];
      assert OccursAt(s, sub, i + 1);
    }
    if i :| OccursAt(s, sub, i) {
      if i == 0 {
        assert s[..|sub|] == s[0..|sub|];
      } else {
        assert s[1..][i - 1..i - 1 + |sub|] == s[i..i + |sub|];
        assert OccursAt(s[1..], sub, i - 1);
      }
    }
  }

  /** A word with a character that `s` lacks cannot occur in `s`. */
  lemma AbsentCharRulesOut(s: string, word: string, j: int)
    requires 0 <= j < |word| && word[j] !in s
    ensures !Contains(s, word)
  {
    ContainsIffOccurs(s, word);
    forall i | 0 <= i && i + |word| <= |s| ensures !OccursAt(s, word, i) {
      assert s[i + j] == s[i..i + |word|][j];
    }
  }

  /** No character of `s` lower-cases to `c`. */
  predicate LacksFolded(s: string, c: char) {
    forall j :: 0 <= j < |s| ==> LowerChar(s[j]) != c
  }

  /** LacksFolded as a left-to-right scan from index `k`, which short literal text evaluates. */
  predicate FoldLacks(s: string, c: char, k: nat)
    decreases |s| - k
  {
    k >= |s| || (LowerChar(s[k]) != c && FoldLacks(s, c, k + 1))
  }

  lemma {:induction false} FoldLacksSpan(s: string, c: char, k: nat)
    requires FoldLacks(s, c, k)
    ensures forall j :: k <= j < |s| ==> LowerChar(s[j]) != c
    decreases |s| - k
  {
    if k < |s| {
      FoldLacksSpan(s, c, k + 1);
    }
  }

  /** Text built from two pieces that both lack `c` lacks it too. */
  lemma LacksFoldedJoin(a: string, b: string, c: char)
    requires LacksFolded(a, c) && LacksFolded(b, c)
    ensures LacksFolded(a + b, c)
  {
    forall j | 0 <= j < |a + b| ensures LowerChar((a + b)[j]) != c {
      if j >= |a| {
        assert (a + b)[j] == b[j - |a|];
      }
    }
  }

  /** A word with a letter that `s` lacks, in either case, does not occur in ToLower(s). */
  lemma FoldedAbsence(s: string, word: string, j: int)
    requires 0 <= j < |word| && LacksFolded(s, word[j])
    ensures !Contains(ToLower(s), word)
  {
    AbsentCharRulesOut(ToLower(s), word, j);
  }

  /**
   * The lower-case `word`, from its index `k` on, matches `s` from index
   * `i + k` on, letter case in `s` aside.
   */
  predicate MatchesFoldedAt(s: string, word: string, i: int, k: nat)
    decreases |word| - k
  {
    k >= |word| || (0 <= i + k < |s| && LowerChar(s[i + k]) == word[k] && MatchesFoldedAt(s, word, i, k + 1))
  }

  lemma {:induction false} MatchesFoldedAtSpan(s: string, word: string, i: int, k: nat)
    requires 0 <= i && k <= |word| && MatchesFoldedAt(s, word, i, k)
    ensures k < |word| ==> i + |word| <= |s|
    ensures forall j :: k <= j < |word| ==> i + j < |s| && LowerChar(s[i + j]) == word[j]
    decreases |word| - k
  {
    if k < |word| {
      MatchesFoldedAtSpan(s, word, i, k + 1);
    }
  }

  /** A case-insensitive match of the piece `mid` is an occurrence in the lower-cased text ending with it. */
  lemma FoldedOccurrence(pre: string, mid: string, word: string)
    requires MatchesFoldedAt(mid, word, 0, 0)
    ensures Contains(ToLower(pre + mid), word)
  {
    var s := pre + mid;
    var t := ToLower(s);
    var i := |pre|;
    MatchesFoldedAtSpan(mid, word, 0, 0);
    if |word| == 0 {
      assert HasPrefix(t, word);
    } else {
      forall j | 0 <= j < |word| ensures t[i + j] == word[j] {
        assert s[i + j] == mid[j];
      }
      assert t[i..i + |word|] == word;
      ContainsIffOccurs(t, word);
      assert OccursAt(t, word, i);
    }
  }

  lemma {:induction false} ToLowerAppend(a: string, b: string)
    ensures ToLower(a + b) == ToLower(a) + ToLower(b)
  {
    var l, r := ToLower(a + b), ToLower(a) + ToLower(b);
    assert forall i :: 0 <= i < |a + b| ==> l[i] == r[i];
  }

  /** An occurrence stays one when more text follows. */
  lemma FoldedGrow(a: string, b: string, word: string)
    requires Contains(ToLower(a), word)
    ensures Contains(ToLower(a + b), word)
  {
    var t := ToLower(a);
    ToLowerAppend(a, b);
    ContainsIffOccurs(t, word);
    ContainsIffOccurs(t + ToLower(b), word);
    var i :| OccursAt(t, word, i);
    assert (t + ToLower(b))[i..i + |word|] == t[i..i + |word|];
    assert OccursAt(t + ToLower(b), word, i);
  }

  /** The longest prefix of `s` free of `c` (what precedes the first `c`). */
  function Before(s: string, c: char): (r: string)
    ensures HasPrefix(s, r)
    ensures c !in r
    ensures r == s || s[|r|] == c
  {
    if s == [] || s[0] == c then [] else [s[0]] + Before(s[1..], c)
  }

  /** Before stops at the first `c`, which is the end of a `c`-free head. */
  lemma {:induction false} BeforeOfFreePrefix(x: string, suffix: string, c: char)
    requires c !in x
    requires suffix == [] || suffix[0] == c
    ensures Before(x + suffix, c) == x
    decreases |x|
  {
    if x == [] {
      assert x + suffix == suffix;
    } else {
      assert (x + suffix)[1..] == x[1..] + suffix;
      assert c !in x[1..];
      BeforeOfFreePrefix(x[1..], suffix, c);
      assert x == [x[0]] + x[1..];
    }
  }

  // ---------------------------------------------------------------------
  // strings.Split and strings.Join on a one-character separator

  /** strings.Split(s, sep): never empty; Split("", sep) == [""]. */
  function Split(s: string, sep: char): (r: seq<string>)
    ensures |r| >= 1
    ensures forall i :: 0 <= i < |r| ==> sep !in r[i]
    decreases |s|
  {
    if s == [] then [""]
    else
      var rest := Split(s[1..], sep);
      if s[0] == sep then [""] + rest
      else [[s[0]] + rest[0]] + rest[1..]
  }

  /** strings.Join(parts, sep). */
  function Join(parts: seq<string>, sep: char): string
  {
    if |parts| == 0 then ""
    else if |parts| == 1 then parts[0]
    else parts[0] + [sep] + Join(parts[1..], sep)
  }

  /** Splitting and re-joining gives back the original text. */
  lemma {:induction false} JoinSplit(s: string, sep: char)
    ensures Join(Split(s, sep), sep) == s
    decreases |s|
  {
    if s != [] {
      var rest := Split(s[1..], sep);
      JoinSplit(s[1..], sep);
      if s[0] == sep {
        assert ([""] + rest)[1..] == rest;
      } else if |rest| > 1 {
        var parts := [[s[0]] + rest[0]] + rest[1..];
        assert parts[1..] == rest[1..];
        assert Join(rest, sep) == rest[0] + [sep] + Join(rest[1..], sep);
        assert s == [s[0]] + s[1..];
      } else {
        assert s == [s[0]] + s[1..];
      }
    }
  }

  /** Text without the separator splits into itself alone. */
  lemma {:induction false} SplitNoSep(a: string, sep: char)
    requires sep !in a
    ensures Split(a, sep) == [a]
    decreases |a|
  {
    if a != [] {
      assert sep !in a[1..];
      SplitNoSep(a[1..], sep);
      assert a == [a[0]] + a[1..];
    }
  }

  /** A separator-free head followed by the separator splits off as one field. */
  lemma {:induction false} SplitHead(a: string, sep: char, b: string)
    requires sep !in a
    ensures Split(a + [sep] + b, sep) == [a] + Split(b, sep)
    decreases |a|
  {
    if a == [] {
      assert ([] + [sep] + b)[1..] == b;
    } else {
      assert (a + [sep] + b)[1..] == a[1..] + [sep] + b;
      assert sep !in a[1..];
      SplitHead(a[1..], sep, b);
      assert a == [a[0]] + a[1..];
    }
  }

  /** Joining separator-free fields and splitting again gives back the fields. */
  lemma {:induction false} SplitJoin(parts: seq<string>, sep: char)
    requires |parts| >= 1
    requires forall i :: 0 <= i < |parts| ==> sep !in parts[i]
    ensures Split(Join(parts, sep), sep) == parts
    decreases |parts|
  {
    if |parts| == 1 {
      SplitNoSep(parts[0], sep);
    } else {
      SplitJoin(parts[1..], sep);
      SplitHead(parts[0], sep, Join(parts[1..], sep));
      assert parts == [parts[0]] + parts[1..];
    }
  }

  // ---------------------------------------------------------------------
  // Decimal numerals

  predicate AllDigits(s: string) {
    forall i :: 0 <= i < |s| ==> IsDigit(s[i])
  }

  function DigitValue(c: char): nat
    requires IsDigit(c)
  {
    c as int - '0' as int
  }

  function DigitChar(d: nat): (c: char)
    requires d < 10
    ensures IsDigit(c) && DigitValue(c) == d
  {
    ('0' as int + d) as char
  }

  /** The value of a string of decimal digits (0 for the empty string). */
  function DigitsValue(s: string): nat
    requires AllDigits(s)
    decreases |s|
  {
    if s == [] then 0 else DigitsValue(s[..|s| - 1]) * 10 + DigitValue(s[|s| - 1])
  }

  function Pow10(n: nat): (r: nat)
    ensures r >= 1
  {
    if n == 0 then 1 else 10 * Pow10(n - 1)
  }

  lemma {:induction false} Pow10Add(a: nat, b: nat)
    ensures Pow10(a + b) == Pow10(a) * Pow10(b)
  {
    if a > 0 {
      Pow10Add(a - 1, b);
      assert Pow10(a + b) == 10 * Pow10(a - 1 + b);
    }
  }

  lemma ShiftDecimal(a: int, pw: int, b: int, d: int)
    ensures (a * pw + b) * 10 + d == a * (pw * 10) + (b * 10 + d)
  {
  }

  /** Reading `p + q` shifts the value of `p` left by the digits of `q`. */
  lemma {:induction false} DigitsValueAppend(p: string, q: string)
    requires AllDigits(p) && AllDigits(q)
    ensures AllDigits(p + q)
    ensures DigitsValue(p + q) == DigitsValue(p) * Pow10(|q|) + DigitsValue(q)
    decreases |q|
  {
    if q == [] {
      assert p + q == p;
    } else {
      var init := q[..|q| - 1];
      var d := DigitValue(q[|q| - 1]);
      DigitsValueAppend(p, init);
      assert (p + q)[..|p + q| - 1] == p + init;
      var a, pw, b := DigitsValue(p), Pow10(|init|), DigitsValue(init);
      assert AllDigits(p + init);
      assert DigitsValue(p + q) == DigitsValue(p + init) * 10 + d;
      assert DigitsValue(q) == b * 10 + d;
      ShiftDecimal(a, pw, b, d);
    }
  }

  /** A non-empty run of decimal digits, read as a number. */
  function ParseDecimal(s: string): (r: Option<nat>)
    ensures r.Some? <==> s != [] && AllDigits(s)
  {
    if s != [] && AllDigits(s) then Some(DigitsValue(s)) else None
  }

  /** strconv.Itoa on a non-negative number. */
  function NatToString(n: nat): (r: string)
    ensures r != [] && AllDigits(r)
    decreases n
  {
    if n < 10 then [DigitChar(n)] else NatToString(n / 10) + [DigitChar(n % 10)]
  }

  /** strconv.Itoa. */
  function IntToString(i: int): string
  {
    if i < 0 then "-" + NatToString(-i) else NatToString(i)
  }

  /** Printing a number and reading it back gives the number. */
  lemma {:induction false} NatToStringRoundTrip(n: nat)
    ensures ParseDecimal(NatToString(n)) == Some(n)
    decreases n
  {
    var s := NatToString(n);
    if n >= 10 {
      NatToStringRoundTrip(n / 10);
      assert s[..|s| - 1] == NatToString(n / 10);
      assert DigitsValue(s) == DigitsValue(NatToString(n / 10)) * 10 + n % 10;
    }
  }

  // ---------------------------------------------------------------------
  // Byte-wise (lexicographic) order on strings, as Go's sort.Strings uses

  predicate LexLeq(a: string, b: string)
    decreases |a|
  {
    a == [] || (b != [] && (a[0] < b[0] || (a[0] == b[0] && LexLeq(a[1..], b[1..]))))
  }

  lemma {:induction false} LexLeqRefl(a: string)
    ensures LexLeq(a, a)
    decreases |a|
  {
    if a != [] { LexLeqRefl(a[1..]); }
  }

  lemma {:induction false} LexLeqTotal(a: string, b: string)
    ensures LexLeq(a, b) || LexLeq(b, a)
    decreases |a|
  {
    if a != [] && b != [] && a[0] == b[0] { LexLeqTotal(a[1..], b[1..]); }
  }

  lemma {:induction false} LexLeqAntisym(a: string, b: string)
    requires LexLeq(a, b) && LexLeq(b, a)
    ensures a == b
    decreases |a|
  {
    if a != [] {
      LexLeqAntisym(a[1..], b[1..]);
      assert a == [a[0]] + a[1..] && b == [b[0]] + b[1..];
    }
  }

  lemma {:induction false} LexLeqTrans(a: string, b: string, c: string)
    requires LexLeq(a, b) && LexLeq(b, c)
    ensures LexLeq(a, c)
    decreases |a|
  {
    if a != [] && a[0] == b[0] && b[0] == c[0] {
      LexLeqTrans(a[1..], b[1..], c[1..]);
    }
  }

  predicate IsLeast(m: string, keys: set<string>) {
    m in keys && forall k :: k in keys ==> LexLeq(m, k)
  }

  lemma {:induction false} LeastExists(keys: set<string>)
    requires keys != {}
    ensures exists m :: IsLeast(m, keys)
    decreases |keys|
  {
    var x :| x in keys;
    if keys == {x} {
      LexLeqRefl(x);
      assert IsLeast(x, keys);
    } else {
      LeastExists(keys - {x});
      var m :| IsLeast(m, keys - {x});
      LexLeqTotal(x, m);
      if LexLeq(x, m) {
        forall k | k in keys ensures LexLeq(x, k) {
          if k == x { LexLeqRefl(x); } else { LexLeqTrans(x, m, k); }
        }
        assert IsLeast(x, keys);
      } else {
        assert IsLeast(m, keys);
      }
    }
  }

  lemma LeastUnique(keys: set<string>)
    ensures forall a, b :: IsLeast(a, keys) && IsLeast(b, keys) ==> a == b
  {
    forall a, b | IsLeast(a, keys) && IsLeast(b, keys) ensures a == b {
      LexLeqAntisym(a, b);
    }
  }

  /** The smallest string of a non-empty set. */
  function Least(keys: set<string>): (m: string)
    requires keys != {}
    ensures IsLeast(m, keys)
  {
    LeastExists(keys);
    LeastUnique(keys);
    var m :| IsLeast(m, keys); m
  }

  /** Each element strictly precedes every later one. */
  predicate StrictlyIncreasing(r: seq<string>) {
    forall i, j :: 0 <= i < j < |r| ==> LexLeq(r[i], r[j]) && r[i] != r[j]
  }

  /** The elements of a set of strings in increasing order (sort.Strings of the keys). */
  function SortedKeys(keys: set<string>): (r: seq<string>)
    ensures |r| == |keys|
    ensures forall k :: k in keys <==> k in r
    ensures StrictlyIncreasing(r)
    decreases |keys|
  {
    if keys == {} then []
    else
      var m := Least(keys);
      var rest := SortedKeys(keys - {m});
      PrependLeast(m, keys, rest);
      [m] + rest
  }

  lemma PrependLeast(m: string, keys: set<string>, rest: seq<string>)
    requires IsLeast(m, keys)
    requires forall k :: k in keys - {m} <==> k in rest
    requires StrictlyIncreasing(rest)
    ensures forall k :: k in keys <==> k in [m] + rest
    ensures StrictlyIncreasing([m] + rest)
  {
    var r := [m] + rest;
    forall i, j | 0 <= i < j < |r| ensures LexLeq(r[i], r[j]) && r[i] != r[j] {
      if i > 0 {
        assert r[i] == rest[i - 1] && r[j] == rest[j - 1];
      } else {
        assert r[j] == rest[j - 1];
        assert r[j] in keys - {m};
      }
    }
  }
}
