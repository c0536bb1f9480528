/**
 * The JavaScript string operations the checker relies on, stated over
 * `seq<char>`: `startsWith`, `includes`, `join`, `split` (as a reference
 * partner of `join`), a global single-character `replace`, and the decimal
 * rendering of a non-negative integer that template strings perform.
 */
module Text {

  /** `s.startsWith(prefix)` */
  predicate StartsWith(s: string, prefix: string)
  {
    |prefix| <= |s| && s[..|prefix|] == prefix
  }

  /** `p` occurs in `s` starting at index `i`. */
  predicate MatchesAt(s: string, p: string, i: nat)
  {
    i + |p| <= |s| && s[i..i + |p|] == p
  }

  /** `s.includes(p)`: case-sensitive substring test. */
  predicate Includes(s: string, p: string)
  {
    exists i: nat | i <= |s| :: MatchesAt(s, p, i)
  }

  /** `startsWith` compares the text with the prefix character by character. */
  lemma StartsWithPointwise(s: string, prefix: string)
    ensures StartsWith(s, prefix) <==> |prefix| <= |s| && forall k | 0 <= k < |prefix| :: s[k] == prefix[k]
  {
  }

  /** `includes` finds nothing longer than the text, and finds every prefix of it. */
  lemma IncludesPrefix(s: string, p: string)
    ensures Includes(s, p) ==> |p| <= |s|
    ensures StartsWith(s, p) ==> Includes(s, p)
  {
    assert StartsWith(s, p) ==> MatchesAt(s, p, 0);
  }

  /** A pattern that has a character the text lacks does not occur in it. */
  lemma NotIncludedWithoutChar(s: string, p: string, c: char)
    requires c in p && c !in s
    ensures !Includes(s, p)
  {
  }

  /**
   * An occurrence in `a + b` that is in neither part would have to cover the
   * last character of `a`; if that character is not in the pattern, there is none.
   */
  lemma NotIncludedAcross(a: string, b: string, p: string)
    requires |a| > 0 && a[|a| - 1] !in p
    requires !Includes(a, p) && !Includes(b, p)
    ensures !Includes(a + b, p)
  {
    var s := a + b;
    if Includes(s, p) {
      var i: nat :| i <= |s| && MatchesAt(s, p, i);
      if i + |p| <= |a| {
        assert s[i..i + |p|] == a[i..i + |p|];
        assert MatchesAt(a, p, i);
      } else if i >= |a| {
        assert s[i..i + |p|] == b[i - |a|..i - |a| + |p|];
        assert MatchesAt(b, p, i - |a|);
      } else {
        CoversLastOfFirst(a, b, p, i);
      }
      assert false;
    }
  }

  /** An occurrence in `a` is still one in `a + b`. */
  lemma MatchesInFront(a: string, b: string, p: string, i: nat)
    requires MatchesAt(a, p, i)
    ensures MatchesAt(a + b, p, i) && Includes(a + b, p)
  {
    var s := a + b;
    assert s[i..i + |p|] == a[i..i + |p|];
    assert i <= |s| && MatchesAt(s, p, i);
  }

  /** An occurrence that starts in `a` and ends in `b` contains the last character of `a`. */
  lemma CoversLastOfFirst(a: string, b: string, p: string, i: nat)
    requires MatchesAt(a + b, p, i) && i < |a| < i + |p|
    ensures a[|a| - 1] in p
  {
    assert p[|a| - 1 - i] == (a + b)[|a| - 1];
  }

  /** `parts.join(sep)` */
  function Join(parts: seq<string>, sep: string): (r: string)
    ensures |parts| == 0 ==> r == ""
    ensures |parts| > 0 ==> StartsWith(r, parts[0])
  {
    if |parts| == 0 then ""
    else if |parts| == 1 then parts[0]
    else parts[0] + sep + Join(parts[1..], sep)
  }

  /** A character in neither the parts nor the separator is not in the joined text. */
  lemma {:induction false} JoinLacks(parts: seq<string>, sep: string, c: char)
    requires c !in sep
    requires forall k | 0 <= k < |parts| :: c !in parts[k]
    ensures c !in Join(parts, sep)
    decreases |parts|
  {
    if |parts| > 1 {
      JoinLacks(parts[1..], sep, c);
    }
  }

  /** `s.split(sep)` for a one-character separator: always at least one piece. */
  function Split(s: string, sep: char): (pieces: seq<string>)
    ensures |pieces| >= 1
    ensures forall k | 0 <= k < |pieces| :: sep !in pieces[k]
    decreases |s|
  {
    if |s| == 0 then [""]
    else
      var rest := Split(s[1..], sep);
      if s[0] == sep then [""] + rest
      else [[s[0]] + rest[0]] + rest[1..]
  }

  /** Splitting a separator-free prefix glued to a tail extends the tail's first piece. */
  lemma {:induction false} SplitFreePrefix(a: string, tail: string, sep: char)
    requires sep !in a
    ensures Split(a + tail, sep) == [a + Split(tail, sep)[0]] + Split(tail, sep)[1..]
    decreases |a|
  {
    if |a| > 0 {
      assert (a + tail)[1..] == a[1..] + tail;
      SplitFreePrefix(a[1..], tail, sep);
      assert [a[0]] + (a[1..] + Split(tail, sep)[0]) == a + Split(tail, sep)[0];
    } else {
      var pieces := Split(tail, sep);
      assert a + tail == tail;
      assert a + pieces[0] == pieces[0];
      assert pieces == [pieces[0]] + pieces[1..];
    }
  }

  /** `split` undoes `join` when no part contains the separator. */
  lemma {:induction false} SplitJoin(parts: seq<string>, sep: char)
    requires |parts| >= 1
    requires forall k | 0 <= k < |parts| :: sep !in parts[k]
    ensures Split(Join(parts, [sep]), sep) == parts
    decreases |parts|
  {
    if |parts| == 1 {
      SplitFreePrefix(parts[0], "", sep);
      assert parts[0] + "" == parts[0];
      assert Split("", sep) == [""];
    } else {
      var tail := Join(parts[1..], [sep]);
      SplitJoin(parts[1..], sep);
      assert Join(parts, [sep]) == parts[0] + ([sep] + tail);
      SplitFreePrefix(parts[0], [sep] + tail, sep);
      assert ([sep] + tail)[1..] == tail;
      assert Split([sep] + tail, sep) == [""] + Split(tail, sep);
      assert parts[0] + "" == parts[0];
      assert parts == [parts[0]] + parts[1..];
    }
  }

  /** `s.replace(/from/g, to)` for a single character `from` and a single character `to`. */
  function ReplaceChar(s: string, from: char, to: char): (r: string)
    ensures |r| == |s|
    ensures forall k | 0 <= k < |s| :: r[k] == (if s[k] == from then to else s[k])
    ensures from != to ==> from !in r
    ensures forall c | c != to && c !in s :: c !in r
  {
    seq(|s|, k requires 0 <= k < |s| => if s[k] == from then to else s[k])
  }

  predicate IsDigit(c: char)
  {
    '0' <= c <= '9'
  }

  function DigitChar(d: nat): (c: char)
    requires d < 10
    ensures IsDigit(c)
  {
    ['0', '1', '2', '3', '4', '5', '6', '7', '8', '9'][d]
  }

  function DigitValue(c: char): (d: nat)
    requires IsDigit(c)
    ensures d < 10 && DigitChar(d) == c
  {
    (c as int - '0' as int) as nat
  }

  /** The decimal text `${n}` of a non-negative integer, without leading zeros. */
  function NatToString(n: nat): (r: string)
    ensures |r| >= 1 && (r[0] == '0' ==> n == 0)
    ensures forall k | 0 <= k < |r| :: IsDigit(r[k])
    decreases n
  {
    if n < 10 then [DigitChar(n)] else NatToString(n / 10) + [DigitChar(n % 10)]
  }

  /** Reads a string of decimal digits back as a number. */
  function ParseNat(s: string): nat
    requires forall k | 0 <= k < |s| :: IsDigit(s[k])
    decreases |s|
  {
    if |s| == 0 then 0 else ParseNat(s[..|s| - 1]) * 10 + DigitValue(s[|s| - 1])
  }

  lemma {:induction false} ParseNatToString(n: nat)
    ensures ParseNat(NatToString(n)) == n
    decreases n
  {
    var r := NatToString(n);
    if n >= 10 {
      ParseNatToString(n / 10);
      assert r[..|r| - 1] == NatToString(n / 10);
    }
  }

  /** Different numbers render differently. */
  lemma NatToStringInjective(m: nat, n: nat)
    requires NatToString(m) == NatToString(n)
    ensures m == n
  {
    ParseNatToString(m);
    ParseNatToString(n);
  }
}
