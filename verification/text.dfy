/**
 * The few string operations the search page relies on: JavaScript's `String(n)`
 * for a non-negative integer, `String.prototype.includes` and
 * `String.prototype.split` on one separator character.
 */
module Text {

  predicate IsDigit(c: char) {
    '0' <= c <= '9'
  }

  predicate AllDigits(s: string) {
    forall i :: 0 <= i < |s| ==> IsDigit(s[i])
  }

  function DigitChar(d: nat): (c: char)
    requires d < 10
    ensures IsDigit(c) && c as int - '0' as int == d
  {
    ('0' as int + d) as char
  }

  function DigitValue(c: char): nat
    requires IsDigit(c)
  {
    c as int - '0' as int
  }

  /**
   * The decimal text of `n` as `String(n)` produces it: only digits, never a
   * leading zero, and as many digits as the magnitude needs.
   */
  function NatToString(n: nat): (s: string)
    ensures |s| > 0 && AllDigits(s)
    ensures s[0] == '0' ==> n == 0
    ensures n < 10 ==> |s| == 1
    ensures n < 100 ==> |s| <= 2
    ensures n < 1000 ==> |s| <= 3
    ensures n >= 10 ==> |s| >= 2
    decreases n
  {
    if n < 10 then [DigitChar(n)] else NatToString(n / 10) + [DigitChar(n % 10)]
  }

  /** Reads a string of decimal digits back as a number. */
  function ParseDecimal(s: string): nat
    requires AllDigits(s)
  {
    if s == [] then 0 else ParseDecimal(s[..|s| - 1]) * 10 + DigitValue(s[|s| - 1])
  }

  /** Rendering a number and reading it back gives the number. */
  lemma {:induction false} ParseNatToString(n: nat)
    ensures ParseDecimal(NatToString(n)) == n
    decreases n
  {
    if n >= 10 {
      var s := NatToString(n);
      assert s[..|s| - 1] == NatToString(n / 10);
      ParseNatToString(n / 10);
    }
  }

  /** Two numbers with the same text are equal: the rendering is injective. */
  lemma NatToStringInjective(m: nat, n: nat)
    requires NatToString(m) == NatToString(n)
    ensures m == n
  {
    ParseNatToString(m);
    ParseNatToString(n);
  }

  /** `t` occurs in `s` starting at index `i`. */
  predicate OccursAt(s: string, t: string, i: int) {
    0 <= i <= |s| - |t| && s[i..i + |t|] == t
  }

  /** `s.includes(t)`. The range of `i` is spelled out so that the methods can evaluate it. */
  predicate Contains(s: string, t: string) {
    exists i :: 0 <= i <= |s| - |t| && OccursAt(s, t, i)
  }

  /** A text without the character '4' never includes "401". */
  lemma {:induction false} NoFourNo401(s: string)
    requires '4' !in s
    ensures !Contains(s, "401")
  {
    forall i | 0 <= i <= |s| - 3
      ensures !OccursAt(s, "401", i)
    {
      assert s[i] in s;
      assert s[i..i + 3][0] == s[i] != "401"[0];
    }
  }

  /**
   * An error text made of a fixed wording without the character '4' followed
   * by a status code of at most three digits includes "401" exactly when the
   * status is 401.
   */
  lemma {:induction false} StatusTextContains401(prefix: string, status: nat)
    requires '4' !in prefix
    requires status < 1000
    ensures Contains(prefix + NatToString(status), "401") <==> status == 401
  {
    var d := NatToString(status);
    var s := prefix + d;
    if status == 401 {
      assert NatToString(40) == "40";
      assert d == "401";
      assert s[|prefix|..|prefix| + 3] == d;
      assert OccursAt(s, "401", |prefix|);
    } else if Contains(s, "401") {
      var i :| 0 <= i <= |s| - 3 && OccursAt(s, "401", i);
      assert s[i..i + 3] == "401";
      assert s[i] == s[i..i + 3][0] == '4';
      if i < |prefix| {
        assert false;
      }
      assert |d| <= 3;
      assert i == |prefix| && |d| == 3;
      assert d == s[i..i + 3];
      assert NatToString(40) == "40";
      assert NatToString(401) == "401";
      NatToStringInjective(status, 401);
      assert false;
    }
  }

  /** `s.split(sep)` for a one-character separator: "" gives [""], "a,,b" gives ["a", "", "b"]. */
  function Split(s: string, sep: char): (parts: seq<string>)
    ensures |parts| >= 1
    ensures forall k :: 0 <= k < |parts| ==> sep !in parts[k]
    decreases |s|
  {
    if s == [] then [""]
    else
      var rest := Split(s[1..], sep);
      if s[0] == sep then [""] + rest else [[s[0]] + rest[0]] + rest[1..]
  }

  /** `parts.join(sep)`. */
  function Join(parts: seq<string>, sep: char): string
    requires |parts| >= 1
    decreases |parts|
  {
    if |parts| == 1 then parts[0] else parts[0] + [sep] + Join(parts[1..], sep)
  }

  /** Joining the pieces of a split gives back the original text. */
  lemma {:induction false} JoinSplit(s: string, sep: char)
    ensures Join(Split(s, sep), sep) == s
    decreases |s|
  {
    if s != [] {
      var rest := Split(s[1..], sep);
      JoinSplit(s[1..], sep);
      if s[0] == sep {
        assert Split(s, sep)[1..] == rest;
      } else {
        var parts := Split(s, sep);
        if |rest| == 1 {
          assert parts == [[s[0]] + rest[0]];
        } else {
          assert parts[1..] == rest[1..];
          assert Join(rest, sep) == rest[0] + [sep] + Join(rest[1..], sep);
        }
      }
    }
  }

  /** Splitting the join of separator-free pieces gives back the pieces. */
  lemma {:induction false} SplitJoin(parts: seq<string>, sep: char)
    requires |parts| >= 1
    requires forall k :: 0 <= k < |parts| ==> sep !in parts[k]
    ensures Split(Join(parts, sep), sep) == parts
    decreases |parts|, |parts[0]|
  {
    var p := parts[0];
    if p == [] {
      if |parts| > 1 {
        SplitJoin(parts[1..], sep);
        assert Join(parts, sep) == [sep] + Join(parts[1..], sep);
      }
    } else {
      var shorter := [p[1..]] + parts[1..];
      assert Join(parts, sep) == [p[0]] + Join(shorter, sep) by {
        if |parts| > 1 {
          assert shorter[1..] == parts[1..];
        }
      }
      assert p[0] in p;
      SplitJoin(shorter, sep);
      assert (([p[0]] + Join(shorter, sep))[1..]) == Join(shorter, sep);
      assert [p[0]] + p[1..] == p;
    }
  }
}
