/**
 Rotating through a list with a shared counter that wraps around, as the connection pool does with
 its queues and the cluster with its nodes.
 */
module RoundRobin {
  /** Where attempt `k` looks, when the counter was at `start`. */
  function Visited(start: nat, k: nat, n: nat, word: nat): (i: nat)
    requires 0 < n && 0 < word
    ensures i < n
  {
    ((start + k) % word) % n
  }

  ghost predicate Visits(start: nat, n: nat, word: nat, i: nat)
    requires 0 < n && 0 < word
  {
    exists k: nat :: k < n && Visited(start, k, n, word) == i
  }

  /** `n` attempts look everywhere. */
  ghost predicate Covers(start: nat, n: nat, word: nat)
    requires 0 < n && 0 < word
  {
    forall i: nat :: i < n ==> Visits(start, n, word, i)
  }

  lemma Remainder(x: int, q: int, n: nat, r: nat)
    requires n > 0 && x == q * n + r && r < n
    ensures x % n == r
  {
    var d := x / n - q;
    assert x == (x / n) * n + x % n;
    assert d * n == r - x % n;
    MultipleIsFar(d, n);
  }

  lemma MultipleIsFar(d: int, n: nat)
    ensures d == 0 || d * n >= n || d * n + n <= 0
  {
  }

  /** The attempt that looks at `i`. */
  function AttemptAt(start: nat, n: nat, i: nat): (k: nat)
    requires i < n
    ensures k < n
  {
    if i >= start % n then i - start % n else i + n - start % n
  }

  lemma AttemptLooks(start: nat, n: nat, i: nat)
    requires i < n
    ensures (start + AttemptAt(start, n, i)) % n == i
  {
    var q := start / n;
    assert start == q * n + start % n;
    if i >= start % n {
      Remainder(start + AttemptAt(start, n, i), q, n, i);
    } else {
      assert (q + 1) * n == q * n + n;
      Remainder(start + AttemptAt(start, n, i), q + 1, n, i);
    }
  }

  lemma AddMultiple(y: nat, word: nat, n: nat)
    requires 0 < n && word % n == 0
    ensures (y + word) % n == y % n
  {
    var p, m := y / n, word / n;
    assert word == m * n && y == p * n + y % n;
    assert (p + m) * n == p * n + m * n;
    Remainder(y + word, p + m, n, y % n);
  }

  lemma WrapsEvenly(x: nat, n: nat, word: nat)
    requires 0 < n && 0 < word && word % n == 0 && x < 2 * word
    ensures (x % word) % n == x % n
  {
    if x < word {
      Remainder(x, 0, word, x);
    } else {
      var y := x - word;
      Remainder(x, 1, word, y);
      AddMultiple(y, word, n);
    }
  }

  lemma CoversIf(start: nat, n: nat, word: nat)
    requires 0 < n <= word && start < word
    requires start + n <= word || word % n == 0
    ensures Covers(start, n, word)
  {
    forall i: nat | i < n ensures Visits(start, n, word, i) {
      var k := AttemptAt(start, n, i);
      AttemptLooks(start, n, i);
      if start + k < word {
        Remainder(start + k, 0, word, start + k);
      } else {
        WrapsEvenly(start + k, n, word);
      }
      assert Visited(start, k, n, word) == i;
    }
  }

  /** Attempt `k` before the wrap and behind it. */
  lemma Looks(start: nat, n: nat, word: nat, k: nat)
    requires 0 < n <= word && start < word && k < n && start + n > word
    ensures start + k < word ==> Visited(start, k, n, word) == (start + k) % n
    ensures start + k >= word ==> Visited(start, k, n, word) == start + k - word
  {
    if start + k >= word {
      Remainder(start + k, 1, word, start + k - word);
      Remainder(start + k - word, 0, n, start + k - word);
    } else {
      Remainder(start + k, 0, word, start + k);
    }
  }

  /** Where the part before the wrap looks: a run of places that starts at the place of the counter. */
  lemma LooksBefore(start: nat, n: nat, m: nat, k: nat)
    requires 0 < n && k < m < n
    ensures var s := start % n;
      (start + k) % n == if s + k < n then s + k else s + k - n
  {
    var q, s := start / n, start % n;
    assert start == q * n + s;
    if s + k < n {
      Remainder(start + k, q, n, s + k);
    } else {
      assert (q + 1) * n == q * n + n;
      Remainder(start + k, q + 1, n, s + k - n);
    }
  }

  /** A place that is missed when the counter wraps in the middle and the words do not divide. */
  lemma Missed(start: nat, n: nat, word: nat) returns (i: nat)
    requires 0 < n <= word && start < word < start + n && word % n != 0
    ensures i < n && !Visits(start, n, word, i)
  {
    var m, s := word - start, start % n;
    // Behind the wrap the places 0 to n - m - 1 are looked at, before it the m places from s on.
    i := if s + m <= n then (if s + m < n then n - 1 else 0) else s - 1;
    assert s + m != n by {
      if s + m == n {
        var q := start / n;
        assert start == q * n + s;
        assert word == (q + 1) * n + 0;
        Remainder(word, q + 1, n, 0);
      }
    }
    forall k: nat | k < n ensures Visited(start, k, n, word) != i {
      Looks(start, n, word, k);
      if start + k < word {
        LooksBefore(start, n, m, k);
      }
    }
  }

  /** All places are looked at exactly if the counter does not wrap on the way, or wraps evenly. */
  lemma CoversExactly(start: nat, n: nat, word: nat)
    requires 0 < n <= word && start < word
    ensures Covers(start, n, word) <==> start + n <= word || word % n == 0
  {
    if start + n <= word || word % n == 0 {
      CoversIf(start, n, word);
    } else {
      var i := Missed(start, n, word);
    }
  }

  // ---------------------------------------------------------------------------------------------
  // A signed counter

  function Abs(x: int): nat
  {
    if x < 0 then -x else x
  }

  /** The remainder of the program: it has the sign of the dividend. */
  function TruncRem(x: int, n: nat): int
    requires 0 < n
  {
    if x < 0 then -((-x) % n) else x % n
  }

  /** Where attempt `k` looks, when the counter was at `counter`. */
  function SignedSpot(counter: int, k: nat, n: nat): (i: nat)
    requires 0 < n
    ensures i < n
  {
    Abs(TruncRem(counter + k + 1, n))
  }

  ghost predicate SignedVisits(counter: int, n: nat, i: nat)
    requires 0 < n
  {
    exists k: nat :: k < n && SignedSpot(counter, k, n) == i
  }

  ghost predicate SignedCovers(counter: int, n: nat)
    requires 0 < n
  {
    forall i: nat :: i < n ==> SignedVisits(counter, n, i)
  }

  /** Above zero the places are looked at upwards, below zero downwards. */
  lemma SignedLooks(counter: int, n: nat, i: nat) returns (k: nat)
    requires i < n && (counter + 1 >= 0 || counter + n <= 0)
    ensures k < n && SignedSpot(counter, k, n) == i
  {
    hide TruncRem, AttemptAt;
    if counter + 1 >= 0 {
      k := AttemptAt(counter + 1, n, i);
      AttemptLooks(counter + 1, n, i);
      UpwardSpot(counter, k, n);
    } else {
      var m := -(counter + n);
      AttemptLooks(m, n, i);
      k := n - 1 - AttemptAt(m, n, i);
      assert -(counter + k + 1) == m + AttemptAt(m, n, i);
      NegatedRem(counter + k + 1, n);
    }
  }

  lemma UpwardSpot(counter: int, k: nat, n: nat)
    requires 0 < n && counter + 1 >= 0
    ensures SignedSpot(counter, k, n) == (counter + 1 + k) % n
  {
  }

  lemma NegatedRem(x: int, n: nat)
    requires 0 < n && x <= 0
    ensures Abs(TruncRem(x, n)) == (-x) % n
  {
    if x == 0 {
      Remainder(0, 0, n, 0);
    }
  }

  /** On the way through zero only small numbers are met, and the last place is missed. */
  lemma SignedMisses(counter: int, n: nat, k: nat)
    requires counter + 1 < 0 < counter + n && k < n
    ensures SignedSpot(counter, k, n) != n - 1
  {
    var x := counter + k + 1;
    Remainder(Abs(x), 0, n, Abs(x));
  }

  /** All places are looked at exactly if the counter does not go through zero on the way. */
  lemma SignedCoversExactly(counter: int, n: nat)
    requires 0 < n
    ensures SignedCovers(counter, n) <==> counter + 1 >= 0 || counter + n <= 0
  {
    if counter + 1 >= 0 || counter + n <= 0 {
      forall i: nat | i < n ensures SignedVisits(counter, n, i) {
        var k := SignedLooks(counter, n, i);
      }
    } else {
      forall k: nat | k < n ensures SignedSpot(counter, k, n) != n - 1 {
        SignedMisses(counter, n, k);
      }
      assert !SignedVisits(counter, n, n - 1);
    }
  }
}
