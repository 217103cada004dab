/** The strings that object ids are made of: decimal numerals, suffixes, and how ids come apart again. */
module Text {

  type Id = string

  /** `str(n)` of a natural number. */
  function Dec(n: nat): (s: string)
    ensures |s| >= 1
    ensures |s| == 1 <==> n < 10
    ensures forall i :: 0 <= i < |s| ==> '0' <= s[i] <= '9'
  {
    if n < 10 then [('0' as int + n) as char] else Dec(n / 10) + [('0' as int + n % 10) as char]
  }

  lemma {:induction false} DecInjective(a: nat, b: nat)
    requires Dec(a) == Dec(b)
    ensures a == b
  {
    var s := Dec(a);
    assert a % 10 == s[|s| - 1] as int - '0' as int;
    assert b % 10 == s[|s| - 1] as int - '0' as int;
    if |s| > 1 {
      assert Dec(a / 10) == s[..|s| - 1] == Dec(b / 10);
      DecInjective(a / 10, b / 10);
    }
  }

  /** `s.lower()`, on the ASCII letters. */
  function Lower(s: string): (r: string)
    ensures |r| == |s|
    ensures forall i :: 0 <= i < |s| ==> r[i] == LowerChar(s[i])
  {
    seq(|s|, i requires 0 <= i < |s| => LowerChar(s[i]))
  }

  function LowerChar(c: char): char {
    if 'A' <= c <= 'Z' then (c as int + 32) as char else c
  }

  predicate EndsWith(s: string, suffix: string) {
    |s| >= |suffix| && s[|s| - |suffix|..] == suffix
  }

  predicate StartsWith(s: string, prefix: string) {
    prefix <= s
  }

  predicate Plain(s: string) {
    '_' !in s
  }

  lemma DecPlain(n: nat)
    ensures Plain(Dec(n))
  {
  }

  lemma LowerKeepsGroup(name: string)
    requires EndsWith(name, "Group")
    ensures EndsWith(Lower(name), "group")
  {
    var s, r := name[|name| - 5..], Lower(name);
    assert s == "Group";
    forall i | 0 <= i < 5
      ensures r[|r| - 5..][i] == "group"[i]
    {
      assert r[|r| - 5..][i] == LowerChar(s[i]);
    }
  }

  function LastMark(s: string): int {
    if s == "" then -1 else if s[|s| - 1] == '_' then |s| - 1 else LastMark(s[..|s| - 1])
  }

  lemma {:induction false} LastMarkAt(a: string, x: string)
    requires Plain(x)
    ensures LastMark(a + "_" + x) == |a|
  {
    var s := a + "_" + x;
    if x != "" {
      assert s[..|s| - 1] == a + "_" + x[..|x| - 1];
      LastMarkAt(a, x[..|x| - 1]);
    }
  }

  /** `a_x` and `b_y` with no underscore in `x` and `y` are the same text only if the parts agree. */
  lemma SplitLast(a: string, x: string, b: string, y: string)
    requires Plain(x) && Plain(y)
    requires a + "_" + x == b + "_" + y
    ensures a == b && x == y
  {
    var s, t := a + "_" + x, b + "_" + y;
    LastMarkAt(a, x);
    LastMarkAt(b, y);
    assert a == s[..|a|] == t[..|a|] == b;
    assert x == s[|a| + 1..] == t[|a| + 1..] == y;
  }

  function FirstMark(s: string): nat {
    if s == "" || s[0] == '_' then 0 else 1 + FirstMark(s[1..])
  }

  lemma {:induction false} FirstMarkAt(x: string, rest: string)
    requires Plain(x)
    ensures FirstMark(x + "_" + rest) == |x|
  {
    var s := x + "_" + rest;
    if x != "" {
      assert s[1..] == x[1..] + "_" + rest;
      FirstMarkAt(x[1..], rest);
    }
  }

  /** `x_` and `y_rest` with no underscore in `x` and `y`: one begins the other only if `x` is `y`. */
  lemma SplitFirst(x: string, y: string, rest: string)
    requires Plain(x) && Plain(y)
    requires StartsWith(y + "_" + rest, x + "_")
    ensures x == y
  {
    var t := y + "_" + rest;
    var tail := t[|x| + 1..];
    assert t == x + "_" + tail;
    FirstMarkAt(x, tail);
    FirstMarkAt(y, rest);
    assert x == t[..|x|] == y;
  }
}
