/** Walking around a table of `n` entries: the modular index steps of the ring, the probe tables and the
    round-robin cursor. */
module Ring {

  /** The `o`-th position after `home`. */
  function At(home: nat, o: nat, n: nat): (i: nat)
    requires home < n && o < n
    ensures i < n
  {
    if home + o < n then home + o else home + o - n
  }

  /** How far around the table from `home` position `i` is. */
  function Offset(home: nat, i: nat, n: nat): (o: nat)
    requires home < n && i < n
    ensures o < n && At(home, o, n) == i
  {
    if i >= home then i - home else i - home + n
  }

  function Next(i: nat, n: nat): (j: nat)
    requires i < n
    ensures j < n
  {
    if i + 1 == n then 0 else i + 1
  }

  const WORD: nat := 0x1_0000_0000

  /** The largest table that 32-bit probing covers. */
  const MAX_TABLE: nat := 0x8000_0000

  /** (home + o) % n where the sum is a 32-bit one. */
  function Probe(home: nat, o: nat, n: nat): (i: nat)
    requires home < n < WORD && o < n
    ensures i < n && (n <= MAX_TABLE ==> i == At(home, o, n))
  {
    var sum := if home + o < WORD then home + o else home + o - WORD;
    if sum < n then sum else sum - n
  }

  /** From every home, `n` probes visit every entry. */
  ghost predicate ProbesAll(n: nat)
    requires n < WORD
  {
    forall home: nat, i: nat :: home < n && i < n ==> Meets(home, i, n)
  }

  ghost predicate Meets(home: nat, i: nat, n: nat)
    requires home < n < WORD
  {
    exists o: nat :: o < n && Probe(home, o, n) == i
  }

  /** Above 2^31 entries, probing from the last entry wraps at 2^32 and never meets the one before it. */
  lemma SkippedEntry(n: nat, o: nat)
    requires MAX_TABLE < n < WORD && o < n
    ensures Probe(n - 1, o, n) != n - 2
  {
  }

  /** Probing covers the table exactly up to 2^31 entries. */
  lemma ProbingIsComplete(n: nat)
    requires n < WORD
    ensures ProbesAll(n) <==> n <= MAX_TABLE
  {
    if n <= MAX_TABLE {
      forall home: nat, i: nat | home < n && i < n
        ensures Meets(home, i, n)
      {
        assert Probe(home, Offset(home, i, n), n) == i;
      }
    } else {
      var home := n - 1;
      forall o: nat | o < n
        ensures Probe(home, o, n) != n - 2
      {
        SkippedEntry(n, o);
      }
      assert !Meets(home, n - 2, n);
    }
  }

  lemma Multiples(n: nat, q: int)
    requires 0 < n
    ensures q <= -1 ==> n * q + n <= 0
    ensures q >= 1 ==> n * q >= n
    ensures q >= 2 ==> n * q >= n + n
  {
  }

  lemma ModBelow(x: nat, n: nat)
    requires x < n
    ensures x % n == x
  {
    var q := x / n;
    assert x == n * q + x % n;
    Multiples(n, q);
  }

  lemma ModOnce(x: nat, n: nat)
    requires 0 < n <= x < n + n
    ensures x % n == x - n
  {
    var q := x / n;
    assert x == n * q + x % n;
    Multiples(n, q);
  }

  lemma ModOf(x: nat, n: nat)
    requires 0 < n && x < n + n
    ensures x % n == if x < n then x else x - n
  {
    if x < n {
      ModBelow(x, n);
    } else {
      ModOnce(x, n);
    }
  }

  /** (home + o) % n in uint32_t arithmetic. */
  method Wrap(home: nat, o: nat, n: nat) returns (i: nat)
    requires home < n < WORD && o < n
    ensures i == Probe(home, o, n)
  {
    ModOf(home + o, WORD);
    var sum := (home + o) % WORD;
    ModOf(sum, n);
    i := sum % n;
  }

  /** (i + 1) % n */
  method Advance(i: nat, n: nat) returns (j: nat)
    requires i < n
    ensures j == Next(i, n)
  {
    ModOf(i + 1, n);
    j := (i + 1) % n;
  }
}
