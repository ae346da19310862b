/** The 64-bit FIFO sequence numbers of the command queue (command_queue.h, command_queue.c).

    The queue steps its counter modulo 2^64 and skips zero, which is reserved as the
    sentinel "before the first command". `SequenceOf(n)` is the number carried by the n-th
    issued command, so an index is the true issue order and a sequence is what the code stores.
 */
module CommandSequence {

  const TWO_63 := 0x8000_0000_0000_0000
  const TWO_64 := 0x1_0000_0000_0000_0000

  /** One step of the counter in tr_command_queue_enqueue_locked. */
  function NextSequence(sequence: nat): (next: nat)
    ensures 0 < next < TWO_64
  {
    var stepped := (sequence + 1) % TWO_64;
    if stepped == 0 then 1 else stepped
  }

  /** tr_command_sequence_after_eq: the top bit of the 64-bit difference is clear. */
  predicate AfterEq(current: nat, target: nat)
  {
    target == 0 || (current - target) % TWO_64 < TWO_63
  }

  /** The sequence stored after `index` commands have been issued. */
  function SequenceOf(index: nat): (sequence: nat)
    ensures sequence < TWO_64
    ensures sequence == 0 <==> index == 0
  {
    if index == 0 then 0 else (index - 1) % (TWO_64 - 1) + 1
  }

  /** Stepping the counter is the same as issuing one more command, across the wrap too. */
  lemma NextIsSuccessor(index: nat)
    ensures NextSequence(SequenceOf(index)) == SequenceOf(index + 1)
  {
    if index != 0 {
      var period := TWO_64 - 1;
      var q, r := (index - 1) / period, (index - 1) % period;
      assert index - 1 == q * period + r;
      if r + 1 < period {
        assert index == q * period + (r + 1);
        QuotientRemainder(index, period, q, r + 1);
      } else {
        assert index == (q + 1) * period + 0;
        QuotientRemainder(index, period, q + 1, 0);
      }
    }
  }

  lemma QuotientRemainder(x: int, d: int, q: int, r: int)
    requires d == TWO_64 - 1 && 0 <= r < d && x == q * d + r
    ensures x % d == r && x / d == q
  {
  }

  /** How far apart two sequences are: the issue distance, plus one if the wrap that
      skips zero lies between them. */
  lemma SequenceDistance(low: nat, high: nat)
    requires 0 < low <= high && high - low < TWO_64 - 1
    ensures SequenceOf(high) - SequenceOf(low) == high - low
         || SequenceOf(high) - SequenceOf(low) == high - low - (TWO_64 - 1)
  {
    var period := TWO_64 - 1;
    var q, r := (low - 1) / period, (low - 1) % period;
    var rest := r + (high - low);
    if rest < period {
      QuotientRemainder(high - 1, period, q, rest);
    } else {
      QuotientRemainder(high - 1, period, q + 1, rest - period);
    }
  }

  /** The modular comparison agrees with the true issue order for any two commands fewer than
      2^63 - 1 issues apart, across the wrap that skips zero. */
  lemma AfterEqIsIssueOrder(current: nat, target: nat)
    requires -(TWO_63 - 1) < current - target < TWO_63 - 1
    ensures AfterEq(SequenceOf(current), SequenceOf(target)) <==> target <= current
  {
    if target != 0 && current != 0 {
      if target <= current {
        SequenceDistance(target, current);
      } else {
        SequenceDistance(current, target);
      }
    }
  }

  /** The bound is tight: at distance 2^63 - 1 with the wrap in between, the comparison
      calls the later command earlier. */
  lemma AfterEqBoundIsTight()
    ensures exists current: nat, target: nat ::
      && current - target == TWO_63 - 1
      && !AfterEq(SequenceOf(current), SequenceOf(target))
  {
    var target := TWO_64 - 1;
    var current := target + TWO_63 - 1;
    assert SequenceOf(target) == TWO_64 - 1;
    assert SequenceOf(current) == TWO_63 - 1;
    assert !AfterEq(SequenceOf(current), SequenceOf(target));
  }
}
