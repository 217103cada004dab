/**
 Synchronising an environment file with its example: a parser of definitions, and a rewriter that walks over the lines
 of the example and puts the current values in. A file is the list of its lines, without their line ends.
 */
module EnvSync {
  import opened Prelude

  // ----- White space -----

  /** What `str.strip` removes and what `\s` matches. */
  predicate IsSpace(c: char) {
    '\t' <= c <= '\r' || '\U{1C}' <= c <= ' ' || c == '\U{85}' || c == '\U{A0}' || c == '\U{1680}' ||
    '\U{2000}' <= c <= '\U{200A}' || c == '\U{2028}' || c == '\U{2029}' || c == '\U{202F}' || c == '\U{205F}' || c == '\U{3000}'
  }

  function LeftStrip(s: string): string {
    if s != "" && IsSpace(s[0]) then LeftStrip(s[1..]) else s
  }

  function RightStrip(s: string): string {
    if s != "" && IsSpace(s[|s| - 1]) then RightStrip(s[..|s| - 1]) else s
  }

  function Strip(s: string): string {
    RightStrip(LeftStrip(s))
  }

  predicate Stripped(s: string) {
    s != "" ==> !IsSpace(s[0]) && !IsSpace(s[|s| - 1])
  }

  predicate AllSpace(s: string) {
    forall i :: 0 <= i < |s| ==> IsSpace(s[i])
  }

  lemma {:induction false} RightStripEnds(s: string)
    ensures RightStrip(s) <= s && (RightStrip(s) != "" ==> !IsSpace(RightStrip(s)[|RightStrip(s)| - 1]))
    decreases |s|
  {
    if s != "" && IsSpace(s[|s| - 1]) {
      RightStripEnds(s[..|s| - 1]);
    }
  }

  lemma {:induction false} LeftStripStarts(s: string)
    ensures LeftStrip(s) != "" ==> !IsSpace(LeftStrip(s)[0])
    decreases |s|
  {
    if s != "" && IsSpace(s[0]) {
      LeftStripStarts(s[1..]);
    }
  }

  lemma StripIsStripped(s: string)
    ensures Stripped(Strip(s))
  {
    LeftStripStarts(s);
    RightStripEnds(LeftStrip(s));
  }

  lemma StrippedStays(s: string)
    requires Stripped(s)
    ensures Strip(s) == s
  {
  }

  lemma {:induction false} RightStripSpaces(s: string, spaces: string)
    requires Stripped(s) && AllSpace(spaces)
    ensures RightStrip(s + spaces) == s
    decreases |spaces|
  {
    if spaces == "" {
      assert s + spaces == s;
    } else {
      assert (s + spaces)[..|s + spaces| - 1] == s + spaces[..|spaces| - 1];
      RightStripSpaces(s, spaces[..|spaces| - 1]);
    }
  }

  /** What is stripped is white space. */
  lemma {:induction false} RightStripRest(s: string) returns (b: string)
    ensures s == RightStrip(s) + b && AllSpace(b)
    decreases |s|
  {
    if s != "" && IsSpace(s[|s| - 1]) {
      var c := RightStripRest(s[..|s| - 1]);
      b := c + [s[|s| - 1]];
      assert s == s[..|s| - 1] + [s[|s| - 1]];
    } else {
      b := "";
      assert s == s + b;
    }
  }

  lemma {:induction false} LeftStripRest(s: string) returns (a: string)
    ensures s == a + LeftStrip(s) && AllSpace(a)
    decreases |s|
  {
    if s != "" && IsSpace(s[0]) {
      var c := LeftStripRest(s[1..]);
      a := [s[0]] + c;
      assert s == [s[0]] + s[1..];
    } else {
      a := "";
      assert s == a + s;
    }
  }

  lemma StripRest(s: string) returns (a: string, b: string)
    ensures s == a + Strip(s) + b && AllSpace(a) && AllSpace(b)
  {
    a := LeftStripRest(s);
    b := RightStripRest(LeftStrip(s));
    Assoc(a, Strip(s), b);
  }

  lemma {:induction false} LeftStripSpaces(spaces: string, s: string)
    requires AllSpace(spaces)
    ensures LeftStrip(spaces + s) == LeftStrip(s)
    decreases |spaces|
  {
    if spaces == "" {
      assert spaces + s == s;
    } else {
      assert (spaces + s)[1..] == spaces[1..] + s;
      LeftStripSpaces(spaces[1..], s);
    }
  }

  lemma StripPadded(a: string, s: string, b: string)
    requires AllSpace(a) && Stripped(s) && AllSpace(b)
    ensures Strip(a + s + b) == s
  {
    Assoc(a, s, b);
    LeftStripSpaces(a, s + b);
    if s == "" {
      assert s + b == b && b == b + "";
      LeftStripSpaces(b, "");
    } else {
      assert (s + b)[0] == s[0];
      RightStripSpaces(s, b);
    }
  }

  lemma {:induction false} KeepsMark(s: string, i: nat)
    requires i < |s| && !IsSpace(s[i])
    ensures Strip(s) != ""
    decreases |s|
  {
    if IsSpace(s[0]) {
      KeepsMark(s[1..], i - 1);
    } else {
      RightKeepsMark(s, i);
    }
  }

  lemma {:induction false} RightKeepsMark(s: string, i: nat)
    requires i < |s| && !IsSpace(s[i])
    ensures i < |RightStrip(s)|
    decreases |s|
  {
    if IsSpace(s[|s| - 1]) {
      RightKeepsMark(s[..|s| - 1], i);
    }
  }

  // ----- Parsing -----

  datatype Definition = Definition(key: string, value: string)

  /** The position of the first `=`, or the length. */
  function Equals(s: string): (i: nat)
    ensures i <= |s| && (i < |s| ==> s[i] == '=') && forall j :: 0 <= j < i ==> s[j] != '='
  {
    if s == "" || s[0] == '=' then 0 else 1 + Equals(s[1..])
  }

  function ParseLine(line: string): Option<Definition> {
    var stripped := Strip(line);
    if stripped == "" || stripped[0] == '#' then None
    else if '=' !in line then None
    else
      var i := Equals(line);
      var key := Strip(line[..i]);
      if key == "" then None else Some(Definition(key, Strip(line[if i < |line| then i + 1 else i..])))
  }

  /** A line `key = value` with any white space around the two; a comment starts with `#` after white space. */
  ghost predicate IsDefinition(line: string, key: string, value: string) {
    exists a, b, c, d ::
      line == ((a + key) + b) + ("=" + ((c + value) + d)) && AllSpace(a) && AllSpace(b) && AllSpace(c) && AllSpace(d) &&
      key != "" && Stripped(key) && Stripped(value) && '=' !in key && key[0] != '#'
  }

  lemma {:induction false} EqualsAfter(left: string, right: string)
    requires '=' !in left
    ensures Equals(left + ("=" + right)) == |left|
    decreases |left|
  {
    var s := left + ("=" + right);
    if left != "" {
      assert s[1..] == left[1..] + ("=" + right);
      assert s[0] in left;
      EqualsAfter(left[1..], right);
    }
  }

  lemma SpaceHasNoEquals(a: string)
    requires AllSpace(a)
    ensures '=' !in a
  {
  }

  lemma FirstMark(a: string, key: string, rest: string)
    requires AllSpace(a) && key != "" && !IsSpace(key[0])
    ensures Strip(a + (key + rest)) != "" && Strip(a + (key + rest))[0] == key[0]
  {
    var s := key + rest;
    LeftStripSpaces(a, s);
    assert s[0] == key[0] && LeftStrip(s) == s;
    RightKeepsMark(s, 0);
    RightStripEnds(s);
  }

  /** The parser finds exactly the definitions. */
  lemma ParsesExactly(line: string, key: string, value: string)
    ensures ParseLine(line) == Some(Definition(key, value)) <==> IsDefinition(line, key, value)
  {
    if ParseLine(line) == Some(Definition(key, value)) {
      ParsedIsDefinition(line);
    }
    if IsDefinition(line, key, value) {
      var a, b, c, d :|
        line == ((a + key) + b) + ("=" + ((c + value) + d)) && AllSpace(a) && AllSpace(b) && AllSpace(c) && AllSpace(d) &&
        key != "" && Stripped(key) && Stripped(value) && '=' !in key && key[0] != '#';
      DefinitionParses(line, a, key, b, c, value, d);
    }
  }

  lemma ParsedIsDefinition(line: string)
    requires ParseLine(line).Some?
    ensures var d := ParseLine(line).value; IsDefinition(line, d.key, d.value)
  {
    var i := Equals(line);
    assert i < |line| by {
      var j :| 0 <= j < |line| && line[j] == '=';
    }
    var left, right := line[..i], line[i + 1..];
    var key, value := Strip(left), Strip(right);
    assert line == left + ("=" + right);
    assert ParseLine(line).value == Definition(key, value) && key != "" && Strip(line) != "" && Strip(line)[0] != '#';
    hide ParseLine, Strip, IsSpace;
    var a, b := StripRest(left);
    var c, d := StripRest(right);
    StripIsStripped(left);
    StripIsStripped(right);
    assert '=' !in key by {
      assert left == (a + key) + b && forall x :: x in key ==> x in left;
    }
    Assoc(a, key, b);
    Assoc(a, key + b, "=" + right);
    Assoc(key, b, "=" + right);
    FirstMark(a, key, b + ("=" + right));
  }

  lemma DefinitionParses(line: string, a: string, key: string, b: string, c: string, value: string, d: string)
    requires line == ((a + key) + b) + ("=" + ((c + value) + d)) && AllSpace(a) && AllSpace(b) && AllSpace(c) && AllSpace(d)
    requires key != "" && Stripped(key) && Stripped(value) && '=' !in key && key[0] != '#'
    ensures ParseLine(line) == Some(Definition(key, value))
  {
    hide Strip, IsSpace, Stripped, AllSpace;
    var left, right := (a + key) + b, (c + value) + d;
    SpaceHasNoEquals(a);
    SpaceHasNoEquals(b);
    EqualsAfter(left, right);
    SplitAtEquals(left, right);
    StripPadded(a, key, b);
    StripPadded(c, value, d);
    Assoc(a, key, b);
    Assoc(a, key + b, "=" + right);
    Assoc(key, b, "=" + right);
    assert !IsSpace(key[0]) by {
      FirstIsMark(key);
    }
    FirstMark(a, key, b + ("=" + right));
  }

  lemma FirstIsMark(key: string)
    requires Stripped(key) && key != ""
    ensures !IsSpace(key[0])
  {
  }

  lemma SplitAtEquals(left: string, right: string)
    ensures var line := left + ("=" + right);
            '=' in line && line[|left|] == '=' && line[..|left|] == left && line[|left| + 1..] == right
  {
    var line := left + ("=" + right);
    assert line[|left|] == '=';
  }

  predicate Defines(line: string, key: string) {
    ParseLine(line).Some? && ParseLine(line).value.key == key
  }

  /** The last definition of a key counts. */
  function Parse(lines: seq<string>): map<string, string> {
    if lines == [] then map[]
    else
      var before, d := Parse(lines[..|lines| - 1]), ParseLine(lines[|lines| - 1]);
      if d.Some? then before[d.value.key := d.value.value] else before
  }

  method ParseEnvFile(lines: seq<string>) returns (variables: map<string, string>)
    ensures variables == Parse(lines)
  {
    variables := map[];
    var i := 0;
    while i < |lines|
      invariant 0 <= i <= |lines| && variables == Parse(lines[..i])
    {
      assert lines[..i + 1][..i] == lines[..i];
      var line := lines[i];
      var stripped := Strip(line);
      if stripped != "" && stripped[0] != '#' && '=' in line {
        var at := Equals(line);
        var key := Strip(line[..at]);
        if key != "" {
          variables := variables[key := Strip(line[if at < |line| then at + 1 else at..])];
        }
      }
      i := i + 1;
    }
    assert lines[..i] == lines;
  }

  /** The number of the last line that defines the key, or the number of lines. */
  function LastLine(lines: seq<string>, key: string): (i: nat)
    ensures i <= |lines|
    decreases |lines|
  {
    if lines == [] then 0
    else if Defines(lines[|lines| - 1], key) then |lines| - 1
    else
      var i := LastLine(lines[..|lines| - 1], key);
      if i == |lines| - 1 then |lines| else i
  }

  lemma {:induction false} LastLineIsLast(lines: seq<string>, key: string)
    ensures var i := LastLine(lines, key);
            (i < |lines| ==> Defines(lines[i], key)) &&
            forall j :: 0 <= j < |lines| && (i == |lines| || j > i) ==> !Defines(lines[j], key)
    decreases |lines|
  {
    hide Defines;
    if lines != [] {
      var fewer := lines[..|lines| - 1];
      LastLineIsLast(fewer, key);
      assert forall j :: 0 <= j < |fewer| ==> lines[j] == fewer[j];
    }
  }

  lemma {:induction false} ParsedLast(lines: seq<string>, key: string)
    ensures key in Parse(lines) <==> LastLine(lines, key) < |lines|
    ensures key in Parse(lines) ==>
              Defines(lines[LastLine(lines, key)], key) && Parse(lines)[key] == ParseLine(lines[LastLine(lines, key)]).value.value
    decreases |lines|
  {
    if lines != [] {
      ParsedLast(lines[..|lines| - 1], key);
    }
  }

  lemma {:induction false} ParsedStripped(lines: seq<string>, key: string)
    requires key in Parse(lines)
    ensures Stripped(Parse(lines)[key])
    decreases |lines|
  {
    ParsedLast(lines, key);
    LastLineIsLast(lines, key);
    var line := lines[LastLine(lines, key)];
    var i := Equals(line);
    StripIsStripped(line[if i < |line| then i + 1 else i..]);
  }

  // ----- Differences -----

  /** The keys of both files whose values differ. */
  function Differing(env: map<string, string>, example: map<string, string>): set<string> {
    set k | k in example && k in env && env[k] != example[k]
  }

  method DetectDifferences(env: map<string, string>, example: map<string, string>) returns (diffs: map<string, (string, string)>)
    ensures diffs.Keys == Differing(env, example)
    ensures forall k :: k in diffs ==> diffs[k] == (env[k], example[k])
  {
    diffs := map[];
    var todo := example.Keys;
    while todo != {}
      invariant todo <= example.Keys
      invariant diffs.Keys == Differing(env, example) - todo
      invariant forall k :: k in diffs ==> diffs[k] == (env[k], example[k])
      decreases todo
    {
      var key :| key in todo;
      if key in env && env[key] != example[key] {
        diffs := diffs[key := (env[key], example[key])];
      }
      todo := todo - {key};
    }
  }

  // ----- Rewriting -----

  predicate Letter(c: char) {
    'A' <= c <= 'Z' || 'a' <= c <= 'z' || c == '_'
  }

  predicate NameChar(c: char) {
    Letter(c) || '0' <= c <= '9'
  }

  function NameLength(s: string): (n: nat)
    ensures n <= |s| && (forall i :: 0 <= i < n ==> NameChar(s[i])) && (n < |s| ==> !NameChar(s[n]))
  {
    if s != "" && NameChar(s[0]) then 1 + NameLength(s[1..]) else 0
  }

  lemma SpaceIsNoName(c: char)
    requires IsSpace(c) || c == '='
    ensures !NameChar(c)
  {
  }

  function SpaceLength(s: string): (n: nat)
    ensures n <= |s| && AllSpace(s[..n]) && (n < |s| ==> !IsSpace(s[n]))
  {
    if s != "" && IsSpace(s[0]) then
      var n := SpaceLength(s[1..]);
      assert s[..n + 1] == [s[0]] + s[1..][..n];
      1 + n
    else 0
  }

  /** `^([A-Za-z_][A-Za-z0-9_]*)\s*=`: the name at the start of the line. */
  function Match(line: string): Option<string> {
    if line == "" || !Letter(line[0]) then None
    else
      var n := NameLength(line);
      var m := SpaceLength(line[n..]);
      if n + m < |line| && line[n + m] == '=' then Some(line[..n]) else None
  }

  /** An ASCII letter or underscore, then ASCII letters, digits and underscores. */
  predicate IsName(k: string) {
    k != "" && ('A' <= k[0] <= 'Z' || 'a' <= k[0] <= 'z' || k[0] == '_') &&
    forall i :: 0 < i < |k| ==> 'A' <= k[i] <= 'Z' || 'a' <= k[i] <= 'z' || k[i] == '_' || '0' <= k[i] <= '9'
  }

  ghost predicate StartsWithName(line: string, k: string) {
    IsName(k) && exists spaces, rest :: AllSpace(spaces) && line == (k + spaces) + ("=" + rest)
  }

  /** The rewriter recognises exactly the lines that start with a name, white space and an equals sign. */
  lemma MatchesExactly(line: string, k: string)
    ensures Match(line) == Some(k) <==> StartsWithName(line, k)
  {
    if Match(line) == Some(k) {
      MatchHasName(line);
    }
    if StartsWithName(line, k) {
      var spaces, rest :| AllSpace(spaces) && line == (k + spaces) + ("=" + rest);
      NameMatches(line, k, spaces, rest);
    }
  }

  lemma MatchHasName(line: string)
    requires Match(line).Some?
    ensures StartsWithName(line, Match(line).value)
  {
    var n := NameLength(line);
    var m := SpaceLength(line[n..]);
    var k, spaces, rest := line[..n], line[n..][..m], line[n + m + 1..];
    assert line[n..][m] == line[n + m];
    assert k[0] == line[0];
    forall i | 0 < i < |k|
      ensures 'A' <= k[i] <= 'Z' || 'a' <= k[i] <= 'z' || k[i] == '_' || '0' <= k[i] <= '9'
    {
      assert k[i] == line[i];
    }
    assert line == (k + spaces) + ("=" + rest);
  }

  lemma NameMatches(line: string, k: string, spaces: string, rest: string)
    requires IsName(k) && AllSpace(spaces) && line == (k + spaces) + ("=" + rest)
    ensures Match(line) == Some(k)
  {
    assert line[0] == k[0];
    var tail := spaces + ("=" + rest);
    assert line == k + tail;
    assert tail[0] == if spaces == "" then '=' else spaces[0];
    SpaceIsNoName(tail[0]);
    NameEnds(k, tail);
    assert line[|k|..] == tail && line[..|k|] == k;
    SpaceEnds(spaces, "=" + rest);
    assert line[|k| + |spaces|] == '=';
  }

  lemma {:induction false} NameEnds(k: string, tail: string)
    requires forall i :: 0 <= i < |k| ==> NameChar(k[i])
    requires tail != "" && !NameChar(tail[0])
    ensures NameLength(k + tail) == |k|
    decreases |k|
  {
    hide NameChar;
    var s := k + tail;
    if k == "" {
      assert s == tail;
    } else {
      assert s[1..] == k[1..] + tail && s[0] == k[0];
      NameEnds(k[1..], tail);
    }
  }

  lemma {:induction false} SpaceEnds(spaces: string, tail: string)
    requires AllSpace(spaces) && tail != "" && !IsSpace(tail[0])
    ensures SpaceLength(spaces + tail) == |spaces|
    decreases |spaces|
  {
    var s := spaces + tail;
    if spaces == "" {
      assert s == tail;
    } else {
      assert s[1..] == spaces[1..] + tail && s[0] == spaces[0];
      SpaceEnds(spaces[1..], tail);
    }
  }

  /** The rewriter and the parser agree: a line that matches defines the name that it matches. */
  lemma MatchParses(line: string)
    requires Match(line).Some?
    ensures Defines(line, Match(line).value)
  {
    var k := Match(line).value;
    MatchHasName(line);
    var spaces, rest :| AllSpace(spaces) && line == (k + spaces) + ("=" + rest);
    var c, d := StripRest(rest);
    StripIsStripped(rest);
    hide Strip, ParseLine, Match;
    NameIsKey(k);
    assert "" + k == k;
    DefinitionParses(line, "", k, spaces, c, Strip(rest), d);
  }

  lemma NameIsKey(k: string)
    requires IsName(k)
    ensures Stripped(k) && '=' !in k && k[0] != '#'
  {
  }

  function Written(key: string, value: string): string {
    key + "=" + value
  }

  lemma {:induction false} WrittenEquals(key: string, value: string)
    requires '=' !in key
    ensures Equals(Written(key, value)) == |key|
    decreases |key|
  {
    if key != "" {
      assert Written(key, value)[1..] == Written(key[1..], value);
      WrittenEquals(key[1..], value);
    }
  }

  /** A written line is parsed back. */
  lemma WrittenParses(line: string, value: string)
    requires Match(line).Some? && Stripped(value)
    ensures ParseLine(Written(Match(line).value, value)) == Some(Definition(Match(line).value, value))
  {
    var n := NameLength(line);
    var key := Match(line).value;
    var w := Written(key, value);
    assert key == line[..n] && key[0] == line[0];
    assert '=' !in key;
    WrittenEquals(key, value);
    assert w[..|key|] == key && w[|key| + 1..] == value && w[0] == key[0];
    assert Stripped(key) by {
      assert key[n - 1] == line[n - 1];
    }
    StrippedStays(key);
    StrippedStays(value);
    assert LeftStrip(w) == w;
    KeepsMark(w, 0);
    RightStripEnds(w);
    assert Strip(w)[0] == w[0];
    assert w[|key|] == '=' && '=' in w;
  }

  function Rewrite(line: string, env: map<string, string>, preserved: set<string>): string {
    if Match(line).Some? && Match(line).value in preserved && Match(line).value in env
    then Written(Match(line).value, env[Match(line).value])
    else line
  }

  function Sync(lines: seq<string>, env: map<string, string>, preserved: set<string>): (r: seq<string>)
    ensures |r| == |lines| && forall i :: 0 <= i < |r| ==> r[i] == Rewrite(lines[i], env, preserved)
  {
    seq(|lines|, i requires 0 <= i < |lines| => Rewrite(lines[i], env, preserved))
  }

  function CountMatching(lines: seq<string>, keys: set<string>, inside: bool): nat {
    if lines == [] then 0
    else
      var k := Match(lines[|lines| - 1]);
      CountMatching(lines[..|lines| - 1], keys, inside) + if k.Some? && (k.value in keys) == inside then 1 else 0
  }

  /** The recognised lines of which the key is, or is not, among the given ones. */
  function MatchingLines(lines: seq<string>, keys: set<string>, inside: bool): set<nat> {
    set i: nat | i < |lines| && Match(lines[i]).Some? && (Match(lines[i]).value in keys) == inside
  }

  lemma {:induction false} CountIsSize(lines: seq<string>, keys: set<string>, inside: bool)
    ensures CountMatching(lines, keys, inside) == |MatchingLines(lines, keys, inside)|
    decreases |lines|
  {
    hide Match;
    if lines == [] {
      assert MatchingLines(lines, keys, inside) == {};
    } else {
      CountIsSize(lines[..|lines| - 1], keys, inside);
      OneMoreMatching(lines, keys, inside);
    }
  }

  lemma OneMoreMatching(lines: seq<string>, keys: set<string>, inside: bool)
    requires lines != []
    ensures var n := |lines| - 1;
            MatchingLines(lines, keys, inside) ==
            MatchingLines(lines[..n], keys, inside) +
            if Match(lines[n]).Some? && (Match(lines[n]).value in keys) == inside then {n} else {}
  {
    hide Match;
  }

  /** One line of output for each line of the example, with counts of the preserved and the updated definitions. */
  method SyncEnvFile(lines: seq<string>, env: map<string, string>, diffs: map<string, (string, string)>)
    returns (out: seq<string>, preserved: nat, updated: nat)
    requires diffs.Keys <= env.Keys
    ensures out == Sync(lines, env, diffs.Keys)
    ensures preserved == CountMatching(lines, diffs.Keys, true) && updated == CountMatching(lines, diffs.Keys, false)
  {
    hide Match, Sync, CountMatching;
    out, preserved, updated := [], 0, 0;
    var i := 0;
    NothingSynced(env, diffs.Keys);
    while i < |lines|
      invariant 0 <= i <= |lines| && out == Sync(lines[..i], env, diffs.Keys)
      invariant preserved == CountMatching(lines[..i], diffs.Keys, true) && updated == CountMatching(lines[..i], diffs.Keys, false)
    {
      OneMoreLine(lines, env, diffs.Keys, i);
      var line := lines[i];
      var name := Match(line);
      if name.Some? {
        if name.value in diffs {
          out := out + [name.value + "=" + env[name.value]];
          preserved := preserved + 1;
        } else {
          out := out + [line];
          updated := updated + 1;
        }
      } else {
        out := out + [line];
      }
      i := i + 1;
    }
    assert lines[..i] == lines;
  }

  lemma NothingSynced(env: map<string, string>, keys: set<string>)
    ensures Sync([], env, keys) == [] && CountMatching([], keys, true) == CountMatching([], keys, false) == 0
  {
  }

  lemma OneMoreLine(lines: seq<string>, env: map<string, string>, keys: set<string>, i: nat)
    requires i < |lines|
    ensures Sync(lines[..i + 1], env, keys) == Sync(lines[..i], env, keys) + [Rewrite(lines[i], env, keys)]
    ensures forall inside :: CountMatching(lines[..i + 1], keys, inside) ==
              CountMatching(lines[..i], keys, inside) +
              if Match(lines[i]).Some? && (Match(lines[i]).value in keys) == inside then 1 else 0
  {
    hide Match;
    assert lines[..i + 1][..i] == lines[..i];
  }

  // ----- The merge -----

  /** The current value where there is one, and the value of the example otherwise. */
  function Merged(env: map<string, string>, example: map<string, string>): map<string, string> {
    map k | k in example :: if k in env then env[k] else example[k]
  }

  predicate ValuesStripped(env: map<string, string>) {
    forall k :: k in env ==> Stripped(env[k])
  }

  /** The definition that counts is one that the rewriter recognises. */
  predicate LastMatches(lines: seq<string>, key: string) {
    var i := LastLine(lines, key);
    i < |lines| && Match(lines[i]).Some?
  }

  lemma RewriteDefines(line: string, env: map<string, string>, preserved: set<string>)
    requires ValuesStripped(env)
    ensures ParseLine(Rewrite(line, env, preserved)) ==
              if Match(line).Some? && Match(line).value in preserved && Match(line).value in env
              then Some(Definition(Match(line).value, env[Match(line).value]))
              else ParseLine(line)
    ensures forall k :: Defines(Rewrite(line, env, preserved), k) == Defines(line, k)
  {
    if Match(line).Some? && Match(line).value in preserved && Match(line).value in env {
      MatchParses(line);
      WrittenParses(line, env[Match(line).value]);
    }
  }

  lemma {:induction false} SameLastLine(lines: seq<string>, out: seq<string>, key: string)
    requires |out| == |lines| && forall i :: 0 <= i < |lines| ==> Defines(out[i], key) == Defines(lines[i], key)
    ensures LastLine(out, key) == LastLine(lines, key)
  {
    LastLineIsLast(out, key);
    LastLineIsLast(lines, key);
    hide Defines;
    var i, j := LastLine(out, key), LastLine(lines, key);
    assert i < |lines| ==> Defines(lines[i], key);
    assert j < |lines| ==> Defines(out[j], key);
  }

  /** What the rewritten file says of a key, in full. */
  lemma SyncParses(lines: seq<string>, env: map<string, string>, key: string)
    requires ValuesStripped(env)
    ensures var example := Parse(lines);
            var r := Parse(Sync(lines, env, Differing(env, example)));
            (key in r <==> key in example) &&
            (key in r ==> r[key] == if key in Differing(env, example) && LastMatches(lines, key) then env[key] else example[key])
  {
    var example := Parse(lines);
    var diffs := Differing(env, example);
    var out := Sync(lines, env, diffs);
    forall i | 0 <= i < |lines|
      ensures Defines(out[i], key) == Defines(lines[i], key)
    {
      RewriteDefines(lines[i], env, diffs);
    }
    SameLastLine(lines, out, key);
    ParsedLast(lines, key);
    ParsedLast(out, key);
    LastLineIsLast(lines, key);
    var i := LastLine(lines, key);
    if i < |lines| {
      RewriteDefines(lines[i], env, diffs);
      if Match(lines[i]).Some? {
        MatchParses(lines[i]);
      }
    }
  }

  /**
   The rewritten file is the merge of the two files if and only if, for every key whose values differ, the definition
   that counts in the example is one that the rewriter recognises.
   */
  lemma SyncIsMergeExactly(lines: seq<string>, env: map<string, string>)
    requires ValuesStripped(env)
    ensures var example := Parse(lines);
            var diffs := Differing(env, example);
            Parse(Sync(lines, env, diffs)) == Merged(env, example) <==> forall k :: k in diffs ==> LastMatches(lines, k)
  {
    hide Sync, Parse, LastMatches;
    var example := Parse(lines);
    var diffs := Differing(env, example);
    var r := Parse(Sync(lines, env, diffs));
    forall k
      ensures (k in r <==> k in example) && (k in r ==> r[k] == if k in diffs && LastMatches(lines, k) then env[k] else example[k])
    {
      SyncParses(lines, env, k);
    }
    MergeIs(env, example, r, set k | k in diffs && LastMatches(lines, k));
  }

  lemma MergeIs(env: map<string, string>, example: map<string, string>, r: map<string, string>, taken: set<string>)
    requires taken <= Differing(env, example)
    requires forall k :: (k in r <==> k in example) && (k in r ==> r[k] == if k in taken then env[k] else example[k])
    ensures r == Merged(env, example) <==> taken == Differing(env, example)
  {
    if r == Merged(env, example) {
      forall k | k in Differing(env, example)
        ensures k in taken
      {
        assert r[k] == env[k];
      }
    }
  }

  /** Lines that the rewriter does not recognise, and definitions of other keys, are kept as they are. */
  lemma OtherLinesKept(lines: seq<string>, env: map<string, string>, preserved: set<string>, i: nat)
    requires i < |lines| && (Match(lines[i]).None? || Match(lines[i]).value !in preserved)
    ensures |Sync(lines, env, preserved)| == |lines| && Sync(lines, env, preserved)[i] == lines[i]
  {
  }

  // ----- Doing it again -----

  /** The whole procedure on the lines of the example and of the current file. */
  function Synced(lines: seq<string>, current: seq<string>): seq<string> {
    var env := Parse(current);
    Sync(lines, env, Differing(env, Parse(lines)))
  }

  lemma ParsedValuesStripped(lines: seq<string>)
    ensures ValuesStripped(Parse(lines))
  {
    forall k | k in Parse(lines)
      ensures Stripped(Parse(lines)[k])
    {
      ParsedStripped(lines, k);
    }
  }

  /** A definition that is rewritten although a later one, which the rewriter does not recognise, is the one that counts. */
  predicate Shadowed(lines: seq<string>, env: map<string, string>, i: nat)
    requires i < |lines|
  {
    Match(lines[i]).Some? && Match(lines[i]).value in Differing(env, Parse(lines)) && !LastMatches(lines, Match(lines[i]).value)
  }

  lemma SecondRewrite(lines: seq<string>, current: seq<string>, i: nat)
    requires i < |lines|
    ensures var env := Parse(current);
            Synced(lines, Synced(lines, current))[i] ==
              if Shadowed(lines, env, i) then lines[i] else Synced(lines, current)[i]
  {
    var env, example := Parse(current), Parse(lines);
    ParsedValuesStripped(current);
    var first := Synced(lines, current);
    var env2 := Parse(first);
    if Match(lines[i]).Some? {
      SyncParses(lines, env, Match(lines[i]).value);
    }
  }

  /** A second run changes nothing if and only if every shadowed definition already reads as it is rewritten. */
  lemma SyncIsIdempotentExactly(lines: seq<string>, current: seq<string>)
    ensures var env := Parse(current);
            Synced(lines, Synced(lines, current)) == Synced(lines, current) <==>
              forall i :: 0 <= i < |lines| && Shadowed(lines, env, i) ==> lines[i] == Rewrite(lines[i], env, Differing(env, Parse(lines)))
  {
    var env := Parse(current);
    var once, twice := Synced(lines, current), Synced(lines, Synced(lines, current));
    forall i | 0 <= i < |lines|
      ensures twice[i] == if Shadowed(lines, env, i) then lines[i] else once[i]
    {
      SecondRewrite(lines, current, i);
    }
    assert |once| == |twice| == |lines|;
  }

  /** With every definition of the example recognised, the sync is a merge and a second run changes nothing. */
  lemma RecognisedIsMergedOnce(lines: seq<string>, current: seq<string>)
    requires forall i :: 0 <= i < |lines| && ParseLine(lines[i]).Some? ==> Match(lines[i]).Some?
    ensures Parse(Synced(lines, current)) == Merged(Parse(current), Parse(lines))
    ensures Synced(lines, Synced(lines, current)) == Synced(lines, current)
  {
    var env := Parse(current);
    ParsedValuesStripped(current);
    forall k | k in Differing(env, Parse(lines))
      ensures LastMatches(lines, k)
    {
      ParsedLast(lines, k);
      LastLineIsLast(lines, k);
    }
    SyncIsMergeExactly(lines, env);
    SyncIsIdempotentExactly(lines, current);
  }

  /** A definition at the start of its line, of a key that is a name, is recognised. */
  lemma NamedIsRecognised(line: string)
    requires ParseLine(line).Some? && IsName(ParseLine(line).value.key) && ParseLine(line).value.key <= line
    ensures Match(line) == Some(ParseLine(line).value.key)
  {
    var k, i := ParseLine(line).value.key, Equals(line);
    KeyIsStripped(line);
    hide ParseLine, Strip, Match;
    NameHasNoEquals(k);
    PrefixBefore(line, k, i);
    var b := OnlySpaceFollows(line[..i], k);
    assert line == (k + b) + ("=" + line[i + 1..]);
    MatchesExactly(line, k);
  }

  lemma KeyIsStripped(line: string)
    requires ParseLine(line).Some?
    ensures Equals(line) < |line| && ParseLine(line).value.key == Strip(line[..Equals(line)])
  {
    var j :| 0 <= j < |line| && line[j] == '=';
  }

  lemma NameHasNoEquals(k: string)
    requires IsName(k)
    ensures '=' !in k
  {
  }

  lemma PrefixBefore(line: string, k: string, i: nat)
    requires k <= line && '=' !in k && i < |line| && line[i] == '='
    ensures |k| <= i && k <= line[..i]
  {
    assert forall j :: 0 <= j < |k| ==> line[j] == k[j];
    assert |k| <= i;
  }

  lemma OnlySpaceFollows(left: string, k: string) returns (b: string)
    requires Strip(left) == k && IsName(k) && k <= left
    ensures left == k + b && AllSpace(b)
  {
    assert left[0] == k[0];
    assert !IsSpace(k[0]);
    assert LeftStrip(left) == left;
    b := RightStripRest(left);
  }

  /**
   For an example whose definitions all start their lines with a key of ASCII letters, digits and underscores that does
   not begin with a digit, the sync is the merge, and a second one changes nothing.
   */
  lemma NamedIsMergedOnce(lines: seq<string>, current: seq<string>)
    requires forall i :: 0 <= i < |lines| && ParseLine(lines[i]).Some? ==>
               IsName(ParseLine(lines[i]).value.key) && ParseLine(lines[i]).value.key <= lines[i]
    ensures Parse(Synced(lines, current)) == Merged(Parse(current), Parse(lines))
    ensures Synced(lines, Synced(lines, current)) == Synced(lines, current)
  {
    forall i | 0 <= i < |lines| && ParseLine(lines[i]).Some?
      ensures Match(lines[i]).Some?
    {
      NamedIsRecognised(lines[i]);
    }
    RecognisedIsMergedOnce(lines, current);
  }

  const INDENTED := " K=1"

  const CURRENT := "K=2"

  lemma IndentedParses()
    ensures ParseLine(INDENTED) == Some(Definition("K", "1")) && Match(INDENTED) == None
  {
    assert LeftStrip(INDENTED) == "K=1" && INDENTED[1..] == "K=1";
    assert Strip("K=1") == "K=1" && Strip("1") == "1";
    assert Equals(INDENTED) == 2 && INDENTED[..2] == " K" && INDENTED[3..] == "1";
    assert LeftStrip(" K") == "K" && " K"[1..] == "K" && Strip("K") == "K";
  }

  lemma CurrentParses()
    ensures ParseLine(CURRENT) == Some(Definition("K", "2"))
  {
    assert Strip("K=2") == "K=2" && Strip("K") == "K" && Strip("2") == "2";
    assert Equals(CURRENT) == 1 && CURRENT[..1] == "K" && CURRENT[2..] == "2";
  }

  lemma OneLine(line: string, d: Definition)
    requires ParseLine(line) == Some(d)
    ensures Parse([line]) == map[d.key := d.value]
  {
    var none: seq<string> := [];
    assert [line][..0] == none;
  }

  /** An indented definition keeps the value of the example. */
  lemma IndentedIsNotMerged() returns (example: string, current: string)
    ensures example == INDENTED && current == CURRENT
    ensures Parse(Synced([example], [current])) == map["K" := "1"]
    ensures Merged(Parse([current]), Parse([example])) == map["K" := "2"]
  {
    example, current := INDENTED, CURRENT;
    IndentedParses();
    CurrentParses();
    KeptAsItIs(example, current);
  }

  lemma KeptAsItIs(example: string, current: string)
    requires ParseLine(example) == Some(Definition("K", "1")) && Match(example).None?
    requires ParseLine(current) == Some(Definition("K", "2"))
    ensures Parse(Synced([example], [current])) == map["K" := "1"]
    ensures Merged(Parse([current]), Parse([example])) == map["K" := "2"]
  {
    OneLine(example, Definition("K", "1"));
    OneLine(current, Definition("K", "2"));
    Unrecognised(example, [current]);
    hide ParseLine, Match, Parse, Synced;
  }

  lemma Unrecognised(line: string, current: seq<string>)
    requires Match(line).None?
    ensures Synced([line], current) == [line]
  {
    hide Match, Parse;
  }
}
