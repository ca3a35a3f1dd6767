/** Python string built-ins the bot relies on: `str.startswith`, the `in`
    substring test, `' '.join(...)` with its inverse `str.split(' ')`, and
    `str(n)` for a non-negative integer. */
module Strings {

  datatype Option<+T> = None | Some(value: T)

  /** `s.startswith(prefix)`: `prefix` occurs at index 0, so it also occurs
      somewhere in `s`. */
  predicate StartsWith(s: string, prefix: string)
    ensures StartsWith(s, prefix) <==> |prefix| <= |s| && forall k :: 0 <= k < |prefix| ==> s[k] == prefix[k]
    ensures StartsWith(s, prefix) ==> Contains(s, prefix)
  {
    OccursAt(s, prefix, 0)
  }

  /** `t` occurs in `s` starting at index `i` */
  predicate OccursAt(s: string, t: string, i: int) {
    0 <= i <= |s| - |t| && s[i..i + |t|] == t
  }

  /** `t in s` for two strings: `t` occurs somewhere in `s`, which is then
      at least as long as `t`. */
  predicate Contains(s: string, t: string)
    ensures Contains(s, t) ==> |t| <= |s|
  {
    exists i :: 0 <= i <= |s| - |t| && OccursAt(s, t, i)
  }

  /** Whatever contains a string contains each of its prefixes. */
  lemma ContainsPrefix(s: string, t: string, n: nat)
    requires Contains(s, t) && n <= |t|
    ensures Contains(s, t[..n])
  {
    var i :| 0 <= i <= |s| - |t| && OccursAt(s, t, i);
    assert s[i..i + n] == s[i..i + |t|][..n];
    assert OccursAt(s, t[..n], i);
  }

  /** `' '.join(parts)`: the empty list gives the empty text, otherwise the
      first part comes first. */
  function JoinWithSpaces(parts: seq<string>): (r: string)
    ensures |parts| == 0 ==> r == ""
    ensures |parts| > 0 ==> StartsWith(r, parts[0])
  {
    if |parts| == 0 then ""
    else if |parts| == 1 then parts[0]
    else
      var rest := JoinWithSpaces(parts[1..]);
      assert (parts[0] + " " + rest)[..|parts[0]|] == parts[0];
      parts[0] + " " + rest
  }

  /** `s.split(' ')`: the pieces between single spaces, empty pieces kept */
  function SplitOnSpaces(s: string): (r: seq<string>)
    ensures |r| >= 1
    ensures forall k :: 0 <= k < |r| ==> ' ' !in r[k]
  {
    if |s| == 0 then [""]
    else if s[0] == ' ' then [""] + SplitOnSpaces(s[1..])
    else
      var rest := SplitOnSpaces(s[1..]);
      [[s[0]] + rest[0]] + rest[1..]
  }

  predicate NoSpaces(parts: seq<string>) {
    forall k :: 0 <= k < |parts| ==> ' ' !in parts[k]
  }

  /** Joining two non-empty runs of parts is joining each and putting one space between. */
  lemma {:induction false} JoinAppend(a: seq<string>, b: seq<string>)
    requires |a| > 0 && |b| > 0
    ensures JoinWithSpaces(a + b) == JoinWithSpaces(a) + " " + JoinWithSpaces(b)
  {
    var ab := a + b;
    assert ab[0] == a[0];
    assert JoinWithSpaces(ab) == a[0] + " " + JoinWithSpaces(ab[1..]);
    if |a| == 1 {
      assert ab[1..] == b;
    } else {
      assert ab[1..] == a[1..] + b;
      JoinAppend(a[1..], b);
      assert JoinWithSpaces(a) == a[0] + " " + JoinWithSpaces(a[1..]);
    }
  }

  /** When no part holds a space, the joined text holds exactly one space
      between each two parts. */
  lemma {:induction false} JoinSpaceCount(parts: seq<string>)
    requires |parts| > 0 && NoSpaces(parts)
    ensures multiset(JoinWithSpaces(parts))[' '] == |parts| - 1
  {
    assert multiset(parts[0])[' '] == 0;
    if |parts| > 1 {
      forall k | 0 <= k < |parts[1..]| ensures ' ' !in parts[1..][k] {
        assert parts[1..][k] == parts[k + 1];
      }
      JoinSpaceCount(parts[1..]);
      var rest := JoinWithSpaces(parts[1..]);
      assert multiset(parts[0] + " " + rest) == multiset(parts[0]) + multiset(" ") + multiset(rest);
    }
  }

  /** A piece without spaces is its own split. */
  lemma {:induction false} SplitWord(w: string)
    requires ' ' !in w
    ensures SplitOnSpaces(w) == [w]
  {
    if |w| > 0 {
      assert ' ' !in w[1..] by {
        forall k | 0 <= k < |w[1..]| ensures w[1..][k] != ' ' {
          assert w[1..][k] == w[k + 1];
        }
      }
      SplitWord(w[1..]);
      assert [w[0]] + w[1..] == w;
    }
  }

  /** A piece without spaces, a space, then the rest: the piece comes off first. */
  lemma {:induction false} SplitWordThenRest(w: string, rest: string)
    requires ' ' !in w
    ensures SplitOnSpaces(w + " " + rest) == [w] + SplitOnSpaces(rest)
  {
    if |w| == 0 {
      assert w + " " + rest == [' '] + rest;
      assert (w + " " + rest)[1..] == rest;
    } else {
      assert ' ' !in w[1..] by {
        forall k | 0 <= k < |w[1..]| ensures w[1..][k] != ' ' {
          assert w[1..][k] == w[k + 1];
        }
      }
      assert (w + " " + rest)[1..] == w[1..] + " " + rest;
      SplitWordThenRest(w[1..], rest);
      assert [w[0]] + w[1..] == w;
    }
  }

  /** `' '.join` followed by `split(' ')` gives the parts back, in order,
      when no part holds a space. */
  lemma {:induction false} SplitJoin(parts: seq<string>)
    requires |parts| > 0 && NoSpaces(parts)
    ensures SplitOnSpaces(JoinWithSpaces(parts)) == parts
  {
    if |parts| == 1 {
      SplitWord(parts[0]);
    } else {
      SplitWordThenRest(parts[0], JoinWithSpaces(parts[1..]));
      SplitJoin(parts[1..]);
      assert [parts[0]] + parts[1..] == parts;
    }
  }

  predicate IsDigit(c: char) {
    '0' <= c <= '9'
  }

  function DigitChar(d: nat): (c: char)
    requires d < 10
    ensures IsDigit(c) && c as int - '0' as int == d
  {
    ('0' as int + d) as char
  }

  /** `str(n)` for `n >= 0`: decimal digits, most significant first. */
  function DecimalString(n: nat): (r: string)
    ensures |r| > 0
    ensures forall k :: 0 <= k < |r| ==> IsDigit(r[k])
    ensures r[0] == '0' <==> n == 0
    ensures n == 0 ==> r == "0"
  {
    if n < 10 then [DigitChar(n)] else DecimalString(n / 10) + [DigitChar(n % 10)]
  }

  function DigitValue(c: char): nat
    requires IsDigit(c)
  {
    c as int - '0' as int
  }

  /** `int(s)` for a string of decimal digits. */
  function DecimalValue(s: string): nat
    requires forall k :: 0 <= k < |s| ==> IsDigit(s[k])
  {
    if |s| == 0 then 0
    else DecimalValue(s[..|s| - 1]) * 10 + DigitValue(s[|s| - 1])
  }

  /** `int(str(n)) == n` */
  lemma {:induction false} DecimalRoundTrip(n: nat)
    ensures DecimalValue(DecimalString(n)) == n
  {
    var r := DecimalString(n);
    if n >= 10 {
      DecimalRoundTrip(n / 10);
      assert r[..|r| - 1] == DecimalString(n / 10);
    }
  }
}
