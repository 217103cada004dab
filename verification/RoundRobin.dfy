/**
 Round-robin load balancing: a shared counter picks the next configuration, configurations that failed cool down, and
 an invocation is retried with the next one.
 */
module RoundRobin {
  import opened Prelude

  const RESET := 10000000

  // ----- The counter -----

  /** The counter after one increment; at the limit it starts again at one. */
  function Ticked(c: nat): nat {
    if c + 1 >= RESET then 1 else c + 1
  }

  /** The limit is ten million; the counter is never read as that. */
  lemma TicksBelowTenMillion(c: nat)
    ensures Ticked(c) == (if c < 9999999 then c + 1 else 1) && 1 <= Ticked(c) < 10000000
  {
  }

  /** The index that the code computes from the counter value, before Python reads -1 as the last one. */
  function RawIndex(c: nat, n: nat): int
    requires n > 0
  {
    var current := if c > n then c % n else c;
    var index := current - 1;
    if index > n then 0 else index
  }

  function PythonIndex(i: int, n: nat): int {
    if i < 0 then n + i else i
  }

  lemma ModStep(a: nat, n: nat)
    requires n > 0
    ensures (a + 1) % n == if a % n == n - 1 then 0 else a % n + 1
  {
    var q, r := a / n, a % n;
    assert a == n * q + r;
    if r == n - 1 {
      assert a + 1 == n * (q + 1);
      ModIs(a + 1, n, q + 1, 0);
    } else {
      ModIs(a + 1, n, q, r + 1);
    }
  }

  lemma ModIs(a: nat, n: nat, q: nat, r: nat)
    requires n > 0 && a == n * q + r && r < n
    ensures a % n == r
  {
    var d: int := a / n - q;
    assert a == n * (a / n) + a % n;
    Multiples(n, d);
    assert n * d == r - a % n;
  }

  lemma Multiples(n: int, d: int)
    requires n > 0
    ensures d >= 1 ==> n * d >= n
    ensures d <= -1 ==> n * d <= -n
  {
    if d >= 1 {
      assert n * d == n + n * (d - 1);
    } else if d <= -1 {
      assert n * d == -n + n * (d + 1);
    }
  }

  /** Counter value `c` selects configuration `(c - 1) mod n`; for a positive multiple of `n` through the index -1. */
  lemma IndexIsModular(c: nat, n: nat)
    requires n > 0 && c >= 1
    ensures PythonIndex(RawIndex(c, n), n) == (c - 1) % n
    ensures RawIndex(c, n) == -1 <==> c > n && c % n == 0
    ensures 0 <= PythonIndex(RawIndex(c, n), n) < n
  {
    ModStep(c - 1, n);
    if c <= n {
      ModIs(c - 1, n, 0, c - 1);
    }
  }

  /** The configuration whose turn it is after `k` more probes, when the counter stands at `c`. */
  function Turn(c: nat, k: nat, n: nat): (i: nat)
    requires n > 0
    ensures i < n
  {
    (c + k) % n
  }

  /** `n` consecutive probes visit each configuration once: `k` is the one probe that visits `i`. */
  lemma ConsecutiveVisitAll(c: nat, n: nat, i: nat) returns (k: nat)
    requires n > 0 && i < n
    ensures k < n && Turn(c, k, n) == i && forall j: nat :: j < n && Turn(c, j, n) == i ==> j == k
  {
    var r := c % n;
    k := if i >= r then i - r else i + n - r;
    Offset(c, n, k);
    forall j: nat | j < n && Turn(c, j, n) == i
      ensures j == k
    {
      Offset(c, n, j);
    }
  }

  lemma Offset(c: nat, n: nat, k: nat)
    requires n > 0 && k < n
    ensures Turn(c, k, n) == if c % n + k < n then c % n + k else c % n + k - n
  {
    var q, r := c / n, c % n;
    assert c == n * q + r;
    if r + k < n {
      ModIs(c + k, n, q, r + k);
    } else {
      assert c + k == n * (q + 1) + (r + k - n);
      ModIs(c + k, n, q + 1, r + k - n);
    }
  }

  // ----- Fetching -----

  /** How far the other clients advance the counter before each of our increments; nothing beyond the list. */
  type Others = seq<nat>

  function First(others: Others): nat {
    if others == [] then 0 else others[0]
  }

  function Rest(others: Others): Others {
    if others == [] then [] else others[1..]
  }

  /** The counter value that probe number `k` gets. */
  function CounterAt(c: nat, others: Others, k: nat): nat
    decreases k
  {
    var c1 := Ticked(c + First(others));
    if k == 0 then c1 else CounterAt(c1, Rest(others), k - 1)
  }

  function ProbeAt(n: nat, c: nat, others: Others, k: nat): (i: nat)
    requires n > 0
    ensures i < n
  {
    var at := CounterAt(c, others, k);
    CounterPositive(c, others, k);
    IndexIsModular(at, n);
    PythonIndex(RawIndex(at, n), n)
  }

  lemma {:induction false} CounterPositive(c: nat, others: Others, k: nat)
    ensures CounterAt(c, others, k) >= 1
    decreases k
  {
    if k > 0 {
      CounterPositive(Ticked(c + First(others)), Rest(others), k - 1);
    }
  }

  /** The number of the first probe from `k` on that finds an available configuration, or `n`. */
  function FirstGood(bad: seq<bool>, c: nat, others: Others, k: nat): (r: nat)
    requires |bad| > 0 && k <= |bad|
    ensures k <= r <= |bad|
    ensures forall j :: k <= j < r ==> bad[ProbeAt(|bad|, c, others, j)]
    ensures r < |bad| ==> !bad[ProbeAt(|bad|, c, others, r)]
    decreases |bad| - k
  {
    if k == |bad| || !bad[ProbeAt(|bad|, c, others, k)] then k else FirstGood(bad, c, others, k + 1)
  }

  ghost predicate Quiet(others: Others) {
    forall k :: 0 <= k < |others| ==> others[k] == 0
  }

  lemma {:induction false} QuietCounter(c: nat, others: Others, k: nat)
    requires Quiet(others) && c + k + 1 < RESET
    ensures CounterAt(c, others, k) == c + k + 1
    decreases k
  {
    if k > 0 {
      QuietCounter(c + 1, Rest(others), k - 1);
    }
  }

  /** Without other writers and without a reset, probe `k` looks at configuration `(c + k) mod n`. */
  lemma QuietProbe(n: nat, c: nat, others: Others, k: nat)
    requires n > 0 && Quiet(others) && c + k + 1 < RESET
    ensures ProbeAt(n, c, others, k) == Turn(c, k, n)
  {
    QuietCounter(c, others, k);
    IndexIsModular(c + k + 1, n);
  }

  /**
   Completeness: without other writers and without a reset the search gives up only if all configurations are
   unavailable; otherwise it takes the first available one in cyclic order.
   */
  lemma QuietSearchIsComplete(bad: seq<bool>, c: nat, others: Others)
    requires |bad| > 0 && Quiet(others) && c + |bad| < RESET
    ensures var k := FirstGood(bad, c, others, 0);
            (k == |bad| <==> forall i :: 0 <= i < |bad| ==> bad[i]) &&
            (k < |bad| ==> !bad[Turn(c, k, |bad|)] && forall j: nat :: j < k ==> bad[Turn(c, j, |bad|)])
  {
    var n := |bad|;
    var k := FirstGood(bad, c, others, 0);
    forall j: nat | j < n
      ensures ProbeAt(n, c, others, j) == Turn(c, j, n)
    {
      QuietProbe(n, c, others, j);
    }
    if k == n {
      forall i | 0 <= i < n
        ensures bad[i]
      {
        var j := ConsecutiveVisitAll(c, n, i);
        assert bad[ProbeAt(n, c, others, j)];
      }
    }
  }

  // ----- Exactly when the search is complete -----

  /** Whatever is unavailable, the search over `n` configurations gives up only if all are. */
  ghost predicate Complete(n: nat, c: nat, others: Others)
    requires n > 0
  {
    forall bad: seq<bool> :: |bad| == n ==> (FirstGood(bad, c, others, 0) == n <==> forall i :: 0 <= i < n ==> bad[i])
  }

  ghost predicate ProbesDiffer(n: nat, c: nat, others: Others)
    requires n > 0
  {
    forall j: nat, k: nat :: j < k < n ==> ProbeAt(n, c, others, j) != ProbeAt(n, c, others, k)
  }

  function Probes(n: nat, c: nat, others: Others): (s: seq<nat>)
    requires n > 0
    ensures |s| == n && forall k :: 0 <= k < n ==> s[k] == ProbeAt(n, c, others, k)
  {
    seq(n, k requires 0 <= k < n => ProbeAt(n, c, others, k))
  }

  function Range(n: nat): (r: set<nat>)
    ensures |r| == n && forall i: nat :: i in r <==> i < n
  {
    if n == 0 then {} else Range(n - 1) + {n - 1}
  }

  lemma DifferentProbesVisitAll(n: nat, c: nat, others: Others, i: nat)
    requires n > 0 && ProbesDiffer(n, c, others) && i < n
    ensures i in Probes(n, c, others)
  {
    var s := Probes(n, c, others);
    if i !in s {
      forall x | x in s
        ensures x in Range(n) - {i}
      {
        var k :| 0 <= k < n && s[k] == x;
      }
      Pigeonhole(s, Range(n) - {i});
    }
  }

  /** The search is complete if and only if no two of its probes look at the same configuration, whatever the other clients do. */
  lemma CompleteExactly(n: nat, c: nat, others: Others)
    requires n > 0
    ensures Complete(n, c, others) <==> ProbesDiffer(n, c, others)
  {
    if ProbesDiffer(n, c, others) {
      forall bad: seq<bool> | |bad| == n
        ensures FirstGood(bad, c, others, 0) == n <==> forall i :: 0 <= i < n ==> bad[i]
      {
        if FirstGood(bad, c, others, 0) == n {
          forall i | 0 <= i < n
            ensures bad[i]
          {
            DifferentProbesVisitAll(n, c, others, i);
            var k :| 0 <= k < n && Probes(n, c, others)[k] == i;
            assert bad[ProbeAt(n, c, others, k)];
          }
        }
      }
    } else {
      var j: nat, k: nat :| j < k < n && ProbeAt(n, c, others, j) == ProbeAt(n, c, others, k);
      var i := MissedBySome(n, c, others, j, k);
      var bad := seq(n, x requires 0 <= x < n => x != i);
      assert !bad[i];
      assert FirstGood(bad, c, others, 0) == n;
    }
  }

  lemma MissedBySome(n: nat, c: nat, others: Others, j: nat, k: nat) returns (i: nat)
    requires n > 0 && j < k < n && ProbeAt(n, c, others, j) == ProbeAt(n, c, others, k)
    ensures i < n && i !in Probes(n, c, others)
  {
    var s := Probes(n, c, others);
    if forall i: nat :: i < n ==> i in s {
      AllVisitedDiffer(s, n, j, k);
    }
    i :| i < n && i !in s;
  }

  /** A list of `n` numbers that repeats one does not have all of `0` to `n - 1`. */
  lemma AllVisitedDiffer(s: seq<nat>, n: nat, j: nat, k: nat)
    requires |s| == n && j < k < n && forall i: nat :: i < n ==> i in s
    ensures s[j] != s[k]
  {
    if s[j] == s[k] {
      var fewer := s[..k] + s[k + 1..];
      forall i | i in Range(n)
        ensures i in fewer
      {
        assert i < n && i in s;
        var m :| 0 <= m < n && s[m] == i;
        if m < k {
          assert fewer[m] == i;
        } else if m > k {
          assert fewer[m - 1] == i;
        } else {
          assert fewer[j] == i;
        }
      }
      Covered(fewer, Range(n));
    }
  }

  lemma {:induction false} Covered(s: seq<nat>, range: set<nat>)
    requires forall i :: i in range ==> i in s
    ensures |range| <= |s|
    decreases |s|
  {
    if s != [] {
      var rest := s[1..];
      assert s == [s[0]] + rest;
      Covered(rest, range - {s[0]});
    } else {
      assert range == {};
    }
  }

  /** Probes in the quiet case: `left` of them come before the counter is reset. */
  lemma QuietProbes(n: nat, c: nat, others: Others, k: nat)
    requires 0 < n < RESET && Quiet(others) && k < n
    ensures c + 1 >= RESET ==> ProbeAt(n, c, others, k) == k
    ensures c + k + 1 < RESET ==> ProbeAt(n, c, others, k) == Turn(c, k, n)
    ensures c + 1 < RESET <= c + k + 1 ==> ProbeAt(n, c, others, k) == k - (RESET - 1 - c)
  {
    QuietAfterReset(c, others, k);
    if c + k + 1 < RESET {
      QuietProbe(n, c, others, k);
    } else {
      var left := if c + 1 >= RESET then 0 else RESET - 1 - c;
      IndexIsModular(k - left + 1, n);
      ModIs(k - left, n, 0, k - left);
    }
  }

  lemma {:induction false} QuietAfterReset(c: nat, others: Others, k: nat)
    requires Quiet(others) && k < RESET - 1
    ensures c + 1 >= RESET ==> CounterAt(c, others, k) == k + 1
    ensures c + 1 < RESET <= c + k + 1 ==> CounterAt(c, others, k) == k - (RESET - 1 - c) + 1
    decreases k
  {
    if k > 0 {
      var c1 := Ticked(c + First(others));
      assert Quiet(Rest(others));
      if c + 1 >= RESET {
        QuietCounter(1, Rest(others), k - 1);
      } else {
        QuietAfterReset(c1, Rest(others), k - 1);
      }
    }
  }

  /**
   Without other writers the search is complete if and only if the counter is not reset in the middle, or is reset before
   the first probe, or the number of configurations divides the last value before the reset.
   */
  lemma QuietCompleteExactly(n: nat, c: nat, others: Others)
    requires 0 < n < RESET && Quiet(others)
    ensures Complete(n, c, others) <==> c + n < RESET || c + 1 >= RESET || (RESET - 1) % n == 0
  {
    CompleteExactly(n, c, others);
    if c + n < RESET || c + 1 >= RESET {
      UnbrokenProbesDiffer(n, c, others);
    } else if (RESET - 1) % n == 0 {
      DividingProbesDiffer(n, c, others);
    } else {
      var j, k := BrokenProbesMeet(n, c, others);
      assert !ProbesDiffer(n, c, others);
    }
  }

  lemma UnbrokenProbesDiffer(n: nat, c: nat, others: Others)
    requires 0 < n < RESET && Quiet(others) && (c + n < RESET || c + 1 >= RESET)
    ensures ProbesDiffer(n, c, others)
  {
    forall j: nat, k: nat | j < k < n
      ensures ProbeAt(n, c, others, j) != ProbeAt(n, c, others, k)
    {
      QuietProbes(n, c, others, j);
      QuietProbes(n, c, others, k);
      if c + n < RESET {
        var m := ConsecutiveVisitAll(c, n, Turn(c, j, n));
      }
    }
  }

  /** Before the reset the probes are the last `left` configurations, after it the first ones. */
  lemma DividingProbesDiffer(n: nat, c: nat, others: Others)
    requires 0 < n < RESET && Quiet(others) && c + 1 < RESET <= c + n && (RESET - 1) % n == 0
    ensures ProbesDiffer(n, c, others)
  {
    var left, q := RESET - 1 - c, (RESET - 1) / n;
    assert RESET - 1 == n * q;
    forall k: nat | k < n
      ensures ProbeAt(n, c, others, k) == if k < left then n - left + k else k - left
    {
      QuietProbes(n, c, others, k);
      if k < left {
        assert c + k == n * (q - 1) + (n - left + k);
        ModIs(c + k, n, q - 1, n - left + k);
      }
    }
  }

  /** Otherwise a probe after the reset looks at a configuration again. */
  lemma BrokenProbesMeet(n: nat, c: nat, others: Others) returns (j: nat, k: nat)
    requires 0 < n < RESET && Quiet(others) && c + 1 < RESET <= c + n && (RESET - 1) % n != 0
    ensures j < k < n && ProbeAt(n, c, others, j) == ProbeAt(n, c, others, k)
  {
    var left, q, rest := RESET - 1 - c, (RESET - 1) / n, (RESET - 1) % n;
    assert RESET - 1 == n * q + rest;
    if rest + left <= n {
      j, k := left - 1, left + rest - 1;
      ModIs(c + j, n, q, rest - 1);
    } else {
      j, k := n - 1 - rest, n - 1;
      ModIs(c + j, n, q, n - left - 1);
    }
    QuietProbes(n, c, others, j);
    QuietProbes(n, c, others, k);
  }

  /** With another writer the search can miss the one available configuration: two probes look at the same one. */
  lemma InterferenceMisses()
    ensures FirstGood([true, false], 0, [0, 1], 0) == 2 && !ProbesDiffer(2, 0, [0, 1])
  {
    assert CounterAt(0, [0, 1], 0) == 1;
    assert Rest([0, 1]) == [1];
    assert CounterAt(1, [1], 0) == 3;
    assert CounterAt(0, [0, 1], 1) == 3;
    IndexIsModular(1, 2);
    IndexIsModular(3, 2);
    assert ProbeAt(2, 0, [0, 1], 0) == ProbeAt(2, 0, [0, 1], 1);
  }

  /** So can it when the counter is reset in the middle; with three configurations it is complete there. */
  lemma ResetMisses()
    ensures FirstGood([true, false], RESET - 2, [], 0) == 2 && !Complete(2, RESET - 2, [])
    ensures Complete(3, RESET - 2, [])
  {
    assert CounterAt(RESET - 2, [], 0) == RESET - 1;
    assert CounterAt(RESET - 2, [], 1) == 1;
    IndexIsModular(RESET - 1, 2);
    IndexIsModular(1, 2);
    assert ![true, false][1];
    QuietCompleteExactly(3, RESET - 2, []);
  }

  /** From here on the counter runs as it does after `k` probes from `c0`. */
  ghost predicate SameCounter(c: nat, left: Others, c0: nat, others: Others, k: nat) {
    forall j: nat :: CounterAt(c, left, j) == CounterAt(c0, others, k + j)
  }

  lemma StartCounter(c: nat, others: Others)
    ensures SameCounter(c, others, c, others, 0)
  {
  }

  lemma NextCounter(c: nat, left: Others, c0: nat, others: Others, k: nat)
    requires SameCounter(c, left, c0, others, k)
    ensures var c1 := Ticked(c + First(left)); c1 == CounterAt(c0, others, k) && SameCounter(c1, Rest(left), c0, others, k + 1)
  {
    var c1 := Ticked(c + First(left));
    assert CounterAt(c, left, 0) == c1;
    assert CounterAt(c0, others, k + 0) == c1;
    forall j: nat
      ensures CounterAt(c1, Rest(left), j) == CounterAt(c0, others, k + 1 + j)
    {
      var i := j + 1;
      assert CounterAt(c, left, i) == CounterAt(c1, Rest(left), i - 1);
      assert CounterAt(c, left, i) == CounterAt(c0, others, k + i);
    }
  }

  // ----- The manager -----

  datatype Config = Config(id: string, name: string, hasCredentials: bool)

  datatype FetchError = DivisionByZero

  const INHERIT := "__inherit__"

  function Usable(configs: seq<Config>, managed: bool): (r: seq<Config>)
    ensures forall c :: c in r <==> c in configs && (managed || c.name != INHERIT)
  {
    if configs == [] then []
    else
      assert configs == [configs[0]] + configs[1..];
      (if managed || configs[0].name != INHERIT then [configs[0]] else []) + Usable(configs[1..], managed)
  }

  predicate Unavailable(c: Config, cooling: map<string, nat>, compliant: set<string>) {
    c.id in cooling || c.id !in compliant
  }

  function Bad(configs: seq<Config>, cooling: map<string, nat>, compliant: set<string>): (r: seq<bool>)
    ensures |r| == |configs|
  {
    seq(|configs|, i requires 0 <= i < |configs| => Unavailable(configs[i], cooling, compliant))
  }

  /** The search as the loop runs it: what is fetched, and where the counter stands then. */
  function FetchFrom(configs: seq<Config>, cooling: map<string, nat>, compliant: set<string>, c: nat, others: Others, tried: nat)
    : (Option<Config>, nat)
    requires tried < |configs|
    decreases |configs| - tried
  {
    var c1, i := Ticked(c + First(others)), NextFor(c + First(others), |configs|);
    if !Unavailable(configs[i], cooling, compliant) then (Some(configs[i]), c1)
    else if tried + 1 >= |configs| then (None, c1)
    else FetchFrom(configs, cooling, compliant, c1, Rest(others), tried + 1)
  }

  function NextFor(c: nat, n: nat): (i: nat)
    requires n > 0
    ensures i < n
  {
    IndexIsModular(Ticked(c), n);
    PythonIndex(RawIndex(Ticked(c), n), n)
  }

  /** The loop finds the first available configuration in the order of the probes. */
  lemma {:induction false} FetchIsSearch(
    configs: seq<Config>, cooling: map<string, nat>, compliant: set<string>, c: nat, left: Others, k: nat, c0: nat, others: Others)
    requires k < |configs| && SameCounter(c, left, c0, others, k)
    ensures var n, bad := |configs|, Bad(configs, cooling, compliant);
            var j := FirstGood(bad, c0, others, k);
            FetchFrom(configs, cooling, compliant, c, left, k) ==
              (if j == n then None else Some(configs[ProbeAt(n, c0, others, j)]), CounterAt(c0, others, if j == n then j - 1 else j))
    decreases |configs| - k
  {
    hide SameCounter, RawIndex, PythonIndex;
    var n, bad := |configs|, Bad(configs, cooling, compliant);
    NextCounter(c, left, c0, others, k);
    var c1 := Ticked(c + First(left));
    assert NextFor(c + First(left), n) == ProbeAt(n, c0, others, k);
    assert bad[ProbeAt(n, c0, others, k)] == Unavailable(configs[ProbeAt(n, c0, others, k)], cooling, compliant);
    if k + 1 < n {
      FetchIsSearch(configs, cooling, compliant, c1, Rest(left), k + 1, c0, others);
    }
  }

  class LBModelManager {
    const configs: seq<Config>
    var counter: nat
    var cooling: map<string, nat>  // by configuration id, with the seconds for which it cools down

    /** Inherited configurations are dropped when there are no managed credentials. */
    constructor (all: seq<Config>, managed: bool, counter: nat, cooling: map<string, nat>)
      ensures configs == Usable(all, managed) && this.counter == counter && this.cooling == cooling
    {
      configs := Usable(all, managed);
      this.counter, this.cooling := counter, cooling;
    }

    method Increment(others: nat) returns (c: nat)
      modifies `counter
      ensures c == counter == Ticked(old(counter) + others)
    {
      counter := counter + others;
      counter := counter + 1;
      if counter >= RESET {
        counter := 1;
      }
      c := counter;
    }

    /** Ends after at most as many probes as there are configurations, whatever the other clients do. */
    method FetchNext(compliant: set<string>, others: Others) returns (r: Result<Option<Config>, FetchError>)
      modifies `counter
      ensures configs == [] <==> r == Err(DivisionByZero)
      ensures configs != [] ==>
                var f := FetchFrom(configs, cooling, compliant, old(counter), others, 0); r == Ok(f.0) && counter == f.1
    {
      if configs == [] {
        var _ := Increment(First(others));
        return Err(DivisionByZero);
      }
      hide Unavailable, NextFor;
      var n, tried, left := |configs|, 0, others;
      while true
        invariant tried < n
        invariant FetchFrom(configs, cooling, compliant, counter, left, tried) ==
                  FetchFrom(configs, cooling, compliant, old(counter), others, 0)
        decreases n - tried
      {
        var i := NextIndex(First(left));
        left := Rest(left);
        if Unavailable(configs[i], cooling, compliant) {
          tried := tried + 1;
          if tried >= n {
            return Ok(None);
          }
        } else {
          return Ok(Some(configs[i]));
        }
      }
    }

    method NextIndex(others: nat) returns (i: nat)
      requires configs != []
      modifies `counter
      ensures counter == Ticked(old(counter) + others) && i == NextFor(old(counter) + others, |configs|)
    {
      var n := |configs|;
      var current := Increment(others);
      IndexIsModular(current, n);
      var index: int := current;
      if index > n {
        index := index % n;
      }
      index := index - 1;
      if index > n {
        index := 0;
      }
      i := if index < 0 then n + index else index;
    }

    method Cooldown(c: Config, expire: nat)
      modifies `cooling
      ensures cooling == old(cooling)[c.id := expire]
    {
      cooling := cooling[c.id := expire];
    }
  }

  // ----- Invoking -----

  /** What an invocation does: `Refused` stands for an authorization or a connection error. */
  datatype Outcome = Success(value: int) | RateLimited(error: int) | Refused(error: int) | Failed(error: int)

  /** What the surroundings do in round `k`: the other clients, the second policy check, and the invoked function. */
  datatype World = World(others: nat -> Others, passes: (nat, Config) -> bool, invoke: (nat, Config) -> Outcome)

  datatype Reply = Returned(value: int) | Raised(error: int) | NotInitialized | Broken(cause: FetchError)

  datatype Attempt = Attempt(config: Config, outcome: Outcome)

  predicate Retryable(o: Outcome) {
    o.RateLimited? || o.Refused?
  }

  function CooldownFor(o: Outcome): nat
    requires Retryable(o)
  {
    if o.RateLimited? then 60 else 10
  }

  function Ids(configs: seq<Config>): set<string> {
    set c | c in configs :: c.id
  }

  datatype Retried = Retried(reply: Reply, calls: seq<Attempt>, counter: nat, cooling: map<string, nat>)

  /** How many configuration ids are not cooling down. */
  ghost function Left(configs: seq<Config>, cooling: map<string, nat>): nat {
    |Ids(configs) - cooling.Keys|
  }

  predicate Good(c: Config, configs: seq<Config>, compliant: set<string>, cooling: map<string, nat>) {
    c in configs && c.id in compliant && c.id !in cooling
  }

  lemma LeftShrinks(configs: seq<Config>, cooling: map<string, nat>, c: Config, expire: nat)
    requires c in configs && c.id !in cooling
    ensures Left(configs, cooling) == Left(configs, cooling[c.id := expire]) + 1
  {
    var ids := Ids(configs);
    assert c.id in ids - cooling.Keys;
    assert ids - cooling[c.id := expire].Keys == (ids - cooling.Keys) - {c.id};
  }

  lemma FetchedIsGood(configs: seq<Config>, cooling: map<string, nat>, compliant: set<string>, c: nat, others: Others)
    requires configs != []
    ensures var f := FetchFrom(configs, cooling, compliant, c, others, 0);
            f.0.Some? ==> Good(f.0.value, configs, compliant, cooling) && f.0.value in configs && f.0.value.id !in cooling
  {
    StartCounter(c, others);
    FetchIsSearch(configs, cooling, compliant, c, others, 0, c, others);
    FetchedFacts(configs, cooling, compliant, c, others);
  }

  function Preceded(a: seq<Attempt>, r: Retried): Retried {
    r.(calls := a + r.calls)
  }

  /** The retry loop from round `round` on, `last` being the last retryable error so far. */
  function Retry(
    configs: seq<Config>, compliant: set<string>, w: World, counter: nat, cooling: map<string, nat>, round: nat, last: Option<int>): Retried
    requires configs != []
    decreases Left(configs, cooling)
  {
    var f := FetchFrom(configs, cooling, compliant, counter, w.others(round), 0);
    match f.0
    case None => Retried(if last.None? then NotInitialized else Raised(last.value), [], f.1, cooling)
    case Some(c) =>
      FetchedIsGood(configs, cooling, compliant, counter, w.others(round));
      LeftShrinks(configs, cooling, c, 60);
      LeftShrinks(configs, cooling, c, 10);
      if !w.passes(round, c) then Retry(configs, compliant, w, f.1, cooling[c.id := 60], round + 1, last)
      else
        var o := w.invoke(round, c);
        match o
        case Success(v) => Retried(Returned(v), [Attempt(c, o)], f.1, cooling)
        case Failed(e) => Retried(Raised(e), [Attempt(c, o)], f.1, cooling)
        case RateLimited(e) => Preceded([Attempt(c, o)], Retry(configs, compliant, w, f.1, cooling[c.id := 60], round + 1, Some(e)))
        case Refused(e) => Preceded([Attempt(c, o)], Retry(configs, compliant, w, f.1, cooling[c.id := 10], round + 1, Some(e)))
  }

  /** The loop of the source, round by round. */
  method RoundRobinInvoke(lb: LBModelManager, compliant: set<string>, w: World) returns (r: Reply, ghost calls: seq<Attempt>)
    modifies lb`counter, lb`cooling
    ensures lb.configs == [] ==> r == Broken(DivisionByZero) && calls == []
    ensures lb.configs != [] ==>
              Retried(r, calls, lb.counter, lb.cooling) == Retry(lb.configs, compliant, w, old(lb.counter), old(lb.cooling), 0, None)
  {
    hide FetchFrom, Left, Good;
    var last: Option<int>, round := None, 0;
    calls := [];
    while true
      invariant lb.configs == [] ==> calls == []
      invariant lb.configs != [] ==>
                  Preceded(calls, Retry(lb.configs, compliant, w, lb.counter, lb.cooling, round, last)) ==
                  Retry(lb.configs, compliant, w, old(lb.counter), old(lb.cooling), 0, None)
      decreases Left(lb.configs, lb.cooling)
    {
      ghost var counter := lb.counter;
      var fetched := lb.FetchNext(compliant, w.others(round));
      if fetched.Err? {
        return Broken(fetched.error), calls;
      }
      if fetched.value.None? {
        r := if last.None? then NotInitialized else Raised(last.value);
        assert calls + [] == calls;
        return;
      }
      var config := fetched.value.value;
      FetchedIsGood(lb.configs, lb.cooling, compliant, counter, w.others(round));
      LeftShrinks(lb.configs, lb.cooling, config, 60);
      LeftShrinks(lb.configs, lb.cooling, config, 10);
      if !w.passes(round, config) {
        lb.Cooldown(config, 60);
        round := round + 1;
        continue;
      }
      var outcome := w.invoke(round, config);
      ghost var before := calls;
      calls := calls + [Attempt(config, outcome)];
      match outcome {
        case Success(value) => return Returned(value), calls;
        case Failed(e) => return Raised(e), calls;
        case RateLimited(e) =>
          lb.Cooldown(config, 60);
          last := Some(e);
        case Refused(e) =>
          lb.Cooldown(config, 10);
          last := Some(e);
      }
      round := round + 1;
      PrecededTwice(before, [Attempt(config, outcome)], Retry(lb.configs, compliant, w, lb.counter, lb.cooling, round, last));
    }
  }

  lemma PrecededTwice(a: seq<Attempt>, b: seq<Attempt>, r: Retried)
    ensures Preceded(a, Preceded(b, r)) == Preceded(a + b, r)
  {
    Assoc(a, b, r.calls);
  }

  // ----- What the retries keep -----

  /** No id is invoked twice, only usable configurations are invoked, and all that failed retryably are cooling down. */
  ghost predicate AttemptsOk(calls: seq<Attempt>, configs: seq<Config>, compliant: set<string>, cooling: map<string, nat>) {
    (forall i, j :: 0 <= i < j < |calls| ==> calls[i].config.id != calls[j].config.id) &&
    forall a :: a in calls ==> AttemptOk(a, configs, compliant, cooling)
  }

  predicate AttemptOk(a: Attempt, configs: seq<Config>, compliant: set<string>, cooling: map<string, nat>) {
    a.config in configs && a.config.id in compliant &&
    (a.outcome.RateLimited? ==> a.config.id in cooling && cooling[a.config.id] == 60) &&
    (a.outcome.Refused? ==> a.config.id in cooling && cooling[a.config.id] == 10)
  }

  /** What was cooling down still is, for as long, and is not invoked. */
  ghost predicate KeepsCooling(before: map<string, nat>, r: Retried) {
    forall id :: id in before ==> id in r.cooling && r.cooling[id] == before[id] && forall a :: a in r.calls ==> a.config.id != id
  }

  function AnswerOf(o: Outcome): Reply {
    if o.Success? then Returned(o.value) else Raised(o.error)
  }

  /** The answer is that of the last attempt, or, with none, the last error so far; all other attempts failed retryably. */
  ghost predicate Answers(r: Reply, last: Option<int>, calls: seq<Attempt>) {
    if calls == [] then r == if last.None? then NotInitialized else Raised(last.value)
    else
      var o := calls[|calls| - 1].outcome;
      (forall i :: 0 <= i < |calls| - 1 ==> Retryable(calls[i].outcome)) &&
      r == AnswerOf(o)
  }

  /** The search gave up: the last attempt, if any, failed retryably. */
  predicate GaveUp(calls: seq<Attempt>) {
    calls == [] || Retryable(calls[|calls| - 1].outcome)
  }

  ghost predicate RetriesOk(configs: seq<Config>, compliant: set<string>, cooling: map<string, nat>, last: Option<int>, r: Retried) {
    AttemptsOk(r.calls, configs, compliant, r.cooling) && KeepsCooling(cooling, r) && Answers(r.reply, last, r.calls)
  }

  /**
   Each configuration is invoked at most once, and none that was cooling down; those that failed retryably cool down
   for 60 or 10 seconds; and the answer is that of the last attempt.
   */
  lemma {:induction false} InvokedAtMostOnce(
    configs: seq<Config>, compliant: set<string>, w: World, counter: nat, cooling: map<string, nat>, round: nat, last: Option<int>)
    requires configs != []
    ensures RetriesOk(configs, compliant, cooling, last, Retry(configs, compliant, w, counter, cooling, round, last))
    decreases Left(configs, cooling)
  {
    hide FetchFrom, RetriesOk, Left;
    var f := FetchFrom(configs, cooling, compliant, counter, w.others(round), 0);
    if f.0.None? {
      NoAttempt(configs, compliant, cooling, last, Retry(configs, compliant, w, counter, cooling, round, last));
    } else {
      var c := f.0.value;
      FetchedIsGood(configs, cooling, compliant, counter, w.others(round));
      LeftShrinks(configs, cooling, c, 60);
      LeftShrinks(configs, cooling, c, 10);
      if !w.passes(round, c) {
        InvokedAtMostOnce(configs, compliant, w, f.1, cooling[c.id := 60], round + 1, last);
        StillCooling(configs, compliant, cooling, last, c, Retry(configs, compliant, w, f.1, cooling[c.id := 60], round + 1, last));
      } else {
        var o := w.invoke(round, c);
        if Retryable(o) {
          var e := o.error;
          InvokedAtMostOnce(configs, compliant, w, f.1, cooling[c.id := CooldownFor(o)], round + 1, Some(e));
          OneAttempt(configs, compliant, cooling, last, Attempt(c, o),
                     Retry(configs, compliant, w, f.1, cooling[c.id := CooldownFor(o)], round + 1, Some(e)));
        } else {
          LastAttempt(configs, compliant, cooling, last, Attempt(c, o), Retry(configs, compliant, w, counter, cooling, round, last));
        }
      }
    }
  }

  lemma NoAttempt(configs: seq<Config>, compliant: set<string>, cooling: map<string, nat>, last: Option<int>, r: Retried)
    requires r.calls == [] && r.cooling == cooling && r.reply == if last.None? then NotInitialized else Raised(last.value)
    ensures RetriesOk(configs, compliant, cooling, last, r)
  {
  }

  lemma StillCooling(configs: seq<Config>, compliant: set<string>, cooling: map<string, nat>, last: Option<int>, c: Config, r: Retried)
    requires Good(c, configs, compliant, cooling) && RetriesOk(configs, compliant, cooling[c.id := 60], last, r)
    ensures RetriesOk(configs, compliant, cooling, last, r)
  {
    hide AttemptsOk, Answers;
  }

  lemma LastAttempt(configs: seq<Config>, compliant: set<string>, cooling: map<string, nat>, last: Option<int>, a: Attempt, r: Retried)
    requires Good(a.config, configs, compliant, cooling) && !Retryable(a.outcome)
    requires r.calls == [a] && r.cooling == cooling
    requires r.reply == AnswerOf(a.outcome)
    ensures RetriesOk(configs, compliant, cooling, last, r)
  {
  }

  lemma OneAttempt(configs: seq<Config>, compliant: set<string>, cooling: map<string, nat>, last: Option<int>, a: Attempt, r: Retried)
    requires Good(a.config, configs, compliant, cooling) && Retryable(a.outcome)
    requires RetriesOk(configs, compliant, cooling[a.config.id := CooldownFor(a.outcome)], Some(a.outcome.error), r)
    ensures RetriesOk(configs, compliant, cooling, last, Preceded([a], r))
  {
    var calls := [a] + r.calls;
    var after := cooling[a.config.id := CooldownFor(a.outcome)];
    assert a.config.id in after;
    assert AttemptOk(a, configs, compliant, r.cooling);
    AttemptsCons(a, r.calls, configs, compliant, r.cooling);
    assert Answers(r.reply, last, calls) by {
      assert forall i :: 1 <= i < |calls| ==> calls[i] == r.calls[i - 1];
    }
    assert KeepsCooling(cooling, Preceded([a], r)) by {
      hide AttemptsOk, Answers, AttemptOk;
      assert forall id :: id in cooling ==> id in after && after[id] == cooling[id];
    }
  }

  lemma AttemptsCons(a: Attempt, calls: seq<Attempt>, configs: seq<Config>, compliant: set<string>, cooling: map<string, nat>)
    requires AttemptsOk(calls, configs, compliant, cooling) && AttemptOk(a, configs, compliant, cooling)
    requires forall b :: b in calls ==> b.config.id != a.config.id
    ensures AttemptsOk([a] + calls, configs, compliant, cooling)
  {
    var all := [a] + calls;
    forall i, j | 0 <= i < j < |all|
      ensures all[i].config.id != all[j].config.id
    {
      assert all[j] == calls[j - 1] && calls[j - 1] in calls;
    }
  }

  // ----- What is cooling down afterwards, and why -----

  /** The call was made in some round from `round` on, with a configuration that passed the second policy check. */
  ghost predicate CallMade(a: Attempt, w: World, round: nat) {
    exists k: nat :: k >= round && w.passes(k, a.config) && a.outcome == w.invoke(k, a.config)
  }

  /** The second policy check of a configuration with this id failed. */
  ghost predicate CheckFailed(id: string, configs: seq<Config>, w: World, round: nat) {
    exists k: nat, c :: k >= round && c in configs && c.id == id && !w.passes(k, c)
  }

  ghost predicate Explained(id: string, seconds: nat, configs: seq<Config>, w: World, round: nat, calls: seq<Attempt>) {
    (seconds == 60 && CheckFailed(id, configs, w, round)) ||
    exists a :: a in calls && a.config.id == id && ((a.outcome.RateLimited? && seconds == 60) || (a.outcome.Refused? && seconds == 10))
  }

  ghost predicate CooldownsExplained(before: map<string, nat>, configs: seq<Config>, w: World, round: nat, r: Retried) {
    (forall a :: a in r.calls ==> CallMade(a, w, round)) &&
    forall id :: id in r.cooling && id !in before ==> Explained(id, r.cooling[id], configs, w, round, r.calls)
  }

  /**
   Each call is the invocation of its configuration in one round, after the second policy check; and whatever starts to
   cool down does so for 60 seconds after a failed policy check or a rate limit, or for 10 after a refused connection.
   */
  lemma {:induction false} CoolsOnlyFailures(
    configs: seq<Config>, compliant: set<string>, w: World, counter: nat, cooling: map<string, nat>, round: nat, last: Option<int>)
    requires configs != []
    ensures CooldownsExplained(cooling, configs, w, round, Retry(configs, compliant, w, counter, cooling, round, last))
    decreases Left(configs, cooling)
  {
    hide FetchFrom, CooldownsExplained, Left, RetriesOk;
    var f := FetchFrom(configs, cooling, compliant, counter, w.others(round), 0);
    var r := Retry(configs, compliant, w, counter, cooling, round, last);
    if f.0.None? {
      NothingCooled(cooling, configs, w, round, r);
    } else {
      var c := f.0.value;
      FetchedIsGood(configs, cooling, compliant, counter, w.others(round));
      LeftShrinks(configs, cooling, c, 60);
      LeftShrinks(configs, cooling, c, 10);
      if !w.passes(round, c) {
        var cooled := cooling[c.id := 60];
        CoolsOnlyFailures(configs, compliant, w, f.1, cooled, round + 1, last);
        InvokedAtMostOnce(configs, compliant, w, f.1, cooled, round + 1, last);
        assert CheckFailed(c.id, configs, w, round);
        var later := Retry(configs, compliant, w, f.1, cooled, round + 1, last);
        CooledFirst(cooling, c.id, 60, configs, w, round, [], later, compliant, last);
        assert [] + later.calls == later.calls;
      } else {
        var o := w.invoke(round, c);
        assert CallMade(Attempt(c, o), w, round);
        if Retryable(o) {
          var cooled := cooling[c.id := CooldownFor(o)];
          CoolsOnlyFailures(configs, compliant, w, f.1, cooled, round + 1, Some(o.error));
          InvokedAtMostOnce(configs, compliant, w, f.1, cooled, round + 1, Some(o.error));
          CooledFirst(cooling, c.id, CooldownFor(o), configs, w, round, [Attempt(c, o)],
                      Retry(configs, compliant, w, f.1, cooled, round + 1, Some(o.error)), compliant, Some(o.error));
        } else {
          NothingCooled(cooling, configs, w, round, r);
        }
      }
    }
  }

  lemma NothingCooled(before: map<string, nat>, configs: seq<Config>, w: World, round: nat, r: Retried)
    requires r.cooling == before && forall a :: a in r.calls ==> CallMade(a, w, round)
    ensures CooldownsExplained(before, configs, w, round, r)
  {
  }

  /** A configuration that is cooled down in this round, with the call that failed, if any. */
  lemma CooledFirst(
    before: map<string, nat>, id: string, seconds: nat, configs: seq<Config>, w: World, round: nat, calls: seq<Attempt>, r: Retried,
    compliant: set<string>, last: Option<int>)
    requires CooldownsExplained(before[id := seconds], configs, w, round + 1, r)
    requires RetriesOk(configs, compliant, before[id := seconds], last, r)
    requires Explained(id, seconds, configs, w, round, calls) && forall a :: a in calls ==> CallMade(a, w, round)
    ensures CooldownsExplained(before, configs, w, round, Preceded(calls, r))
  {
    hide AttemptsOk, Answers;
    var q := Preceded(calls, r);
    assert id in before[id := seconds];
    forall x | x in q.cooling && x !in before
      ensures Explained(x, q.cooling[x], configs, w, round, q.calls)
    {
      if x == id {
        MoreCalls(x, q.cooling[x], configs, w, round, round, calls, q.calls);
      } else {
        MoreCalls(x, q.cooling[x], configs, w, round + 1, round, r.calls, q.calls);
      }
    }
    forall a | a in q.calls
      ensures CallMade(a, w, round)
    {
      if a in r.calls {
        assert CallMade(a, w, round + 1);
      }
    }
  }

  lemma MoreCalls(id: string, seconds: nat, configs: seq<Config>, w: World, late: nat, round: nat, some: seq<Attempt>, all: seq<Attempt>)
    requires Explained(id, seconds, configs, w, late, some) && round <= late && forall a :: a in some ==> a in all
    ensures Explained(id, seconds, configs, w, round, all)
  {
  }

  ghost predicate Undisturbed(w: World) {
    forall k :: Quiet(w.others(k))
  }

  /**
   Without other writers and without a reset of the counter, the search gives up only when every configuration is
   cooling down or not compliant.
   */
  lemma {:induction false} GivesUpOnlyWhenAllFail(
    configs: seq<Config>, compliant: set<string>, w: World, counter: nat, cooling: map<string, nat>, round: nat, last: Option<int>)
    requires configs != [] && Undisturbed(w) && counter + |configs| * (Left(configs, cooling) + 1) < RESET
    ensures var r := Retry(configs, compliant, w, counter, cooling, round, last);
            GaveUp(r.calls) ==> forall c :: c in configs ==> Unavailable(c, r.cooling, compliant)
    decreases Left(configs, cooling)
  {
    hide FetchFrom, Left, Unavailable, Undisturbed;
    var n, k := |configs|, Left(configs, cooling);
    var f := FetchFrom(configs, cooling, compliant, counter, w.others(round), 0);
    Distribute(n, k);
    QuietFetch(configs, cooling, compliant, counter, w, round);
    if f.0.Some? {
      var c := f.0.value;
      FetchedIsGood(configs, cooling, compliant, counter, w.others(round));
      LeftShrinks(configs, cooling, c, 60);
      LeftShrinks(configs, cooling, c, 10);
      var o := w.invoke(round, c);
      if !w.passes(round, c) {
        GivesUpOnlyWhenAllFail(configs, compliant, w, f.1, cooling[c.id := 60], round + 1, last);
      } else if Retryable(o) {
        GivesUpOnlyWhenAllFail(configs, compliant, w, f.1, cooling[c.id := CooldownFor(o)], round + 1, Some(o.error));
        LastOfCons(Attempt(c, o), Retry(configs, compliant, w, f.1, cooling[c.id := CooldownFor(o)], round + 1, Some(o.error)).calls);
      }
    }
  }

  lemma LastOfCons(a: Attempt, calls: seq<Attempt>)
    ensures Retryable(a.outcome) ==> (GaveUp([a] + calls) <==> GaveUp(calls))
  {
  }

  lemma Distribute(n: nat, k: nat)
    ensures n * (k + 1) == n * k + n
  {
  }

  /** One fetch when nobody disturbs the counter: it advances by at most the number of configurations. */
  lemma QuietFetch(configs: seq<Config>, cooling: map<string, nat>, compliant: set<string>, c: nat, w: World, round: nat)
    requires configs != [] && Undisturbed(w) && c + |configs| < RESET
    ensures var f := FetchFrom(configs, cooling, compliant, c, w.others(round), 0);
            f.1 <= c + |configs| && (f.0.None? ==> forall x :: x in configs ==> Unavailable(x, cooling, compliant))
  {
    StartCounter(c, w.others(round));
    FetchIsSearch(configs, cooling, compliant, c, w.others(round), 0, c, w.others(round));
    FetchedFacts(configs, cooling, compliant, c, w.others(round));
  }

  lemma FetchedFacts(configs: seq<Config>, cooling: map<string, nat>, compliant: set<string>, c: nat, others: Others)
    requires configs != []
    ensures var n, j := |configs|, FirstGood(Bad(configs, cooling, compliant), c, others, 0);
            (j < n ==> Good(configs[ProbeAt(n, c, others, j)], configs, compliant, cooling)) &&
            (Quiet(others) && c + n < RESET ==>
               CounterAt(c, others, if j == n then j - 1 else j) <= c + n &&
               (j == n ==> forall x :: x in configs ==> Unavailable(x, cooling, compliant)))
  {
    var n, bad := |configs|, Bad(configs, cooling, compliant);
    var j := FirstGood(bad, c, others, 0);
    if Quiet(others) && c + n < RESET {
      QuietCounter(c, others, if j == n then j - 1 else j);
      if j == n {
        AllBad(configs, cooling, compliant, c, others);
      }
    }
  }

  lemma AllBad(configs: seq<Config>, cooling: map<string, nat>, compliant: set<string>, c: nat, others: Others)
    requires configs != [] && Quiet(others) && c + |configs| < RESET
    requires FirstGood(Bad(configs, cooling, compliant), c, others, 0) == |configs|
    ensures forall x :: x in configs ==> Unavailable(x, cooling, compliant)
  {
    var bad := Bad(configs, cooling, compliant);
    QuietSearchIsComplete(bad, c, others);
    forall x | x in configs
      ensures Unavailable(x, cooling, compliant)
    {
      var i :| 0 <= i < |configs| && configs[i] == x;
      assert bad[i];
    }
  }
}
