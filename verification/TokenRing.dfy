/**
 The ring of recently handled command tokens: a fixed number of slots written round robin. It always
 holds the last tokens recorded, so recording only unseen tokens keeps repeats far apart.
 */
module TokenRing {
  import opened Bytes

  // ---------------------------------------------------------------------------------------------
  // Remainders

  lemma MultipleIsLarge(n: int, d: int)
    requires 0 < n && 1 <= d
    ensures n <= n * d
  {
    assert n * d == n + n * (d - 1);
  }

  lemma SmallMultipleIsZero(n: int, d: int)
    requires 0 < n && -n < n * d < n
    ensures d == 0
  {
    if d >= 1 {
      MultipleIsLarge(n, d);
    } else if d <= -1 {
      assert n * -d == -(n * d);
      MultipleIsLarge(n, -d);
    }
  }

  lemma RemainderIs(x: int, n: nat, i: nat, k: int)
    requires 0 < n && i < n && x == i + n * k
    ensures x % n == i
  {
    var q, r := x / n, x % n;
    assert x == n * q + r;
    assert r - i == n * (k - q);
    SmallMultipleIsZero(n, k - q);
  }

  /** Among any `n` consecutive numbers one has remainder `i`. */
  lemma RemainderInWindow(c: int, n: nat, i: nat) returns (m: int)
    requires 0 < n && i < n
    ensures c - n <= m < c && m % n == i
  {
    var r := (i - c) % n;
    var q := (i - c) / n;
    assert i - c == n * q + r;
    m := c - n + r;
    assert m == i + n * (-1 - q);
    RemainderIs(m, n, i, -1 - q);
  }

  /** Numbers closer than `n` have different remainders. */
  lemma RemaindersDiffer(a: int, b: int, n: nat)
    requires 0 < n && a < b < a + n
    ensures a % n != b % n
  {
    var p, q := a / n, b / n;
    assert a == n * p + a % n && b == n * q + b % n;
    if a % n == b % n {
      assert b - a == n * (q - p);
      SmallMultipleIsZero(n, q - p);
    }
  }

  lemma NextRemainder(c: nat, n: nat)
    requires 0 < n
    ensures (c % n + 1) % n == (c + 1) % n
  {
    assert c == n * (c / n) + c % n;
    if c % n + 1 == n {
      assert c + 1 == n * (c / n + 1);
      RemainderIs(c + 1, n, 0, c / n + 1);
      RemainderIs(n, n, 0, 1);
    } else {
      RemainderIs(c + 1, n, c % n + 1, c / n);
      RemainderIs(c % n + 1, n, c % n + 1, 0);
    }
  }

  // ---------------------------------------------------------------------------------------------
  // What the ring holds

  function At(recorded: seq<u16>, m: int): u16 { if 0 <= m < |recorded| then recorded[m] else 0 }

  /** Slot by slot: the last `|ring|` tokens recorded, zero where there were fewer. */
  predicate Holds(ring: seq<u16>, cursor: nat, recorded: seq<u16>)
  {
    && 0 < |ring| && cursor == |recorded| % |ring|
    && forall m :: |recorded| - |ring| <= m < |recorded| ==> ring[m % |ring|] == At(recorded, m)
  }

  lemma EmptyHolds(n: nat)
    requires 0 < n
    ensures Holds(seq(n, _ => 0), 0, [])
  {
    RemainderIs(0, n, 0, 0);
  }

  lemma SmallRemainder(c: nat, n: nat)
    requires c < n
    ensures c % n == c
  {
    RemainderIs(c, n, c, 0);
  }

  predicate Recent(recorded: seq<u16>, n: nat, token: u16)
  {
    exists m :: 0 <= m < |recorded| && |recorded| - n <= m && recorded[m] == token
  }

  /** Looking through the slots finds exactly the recent tokens. */
  lemma SeenIffRecent(ring: seq<u16>, cursor: nat, recorded: seq<u16>, token: u16)
    requires Holds(ring, cursor, recorded) && token != 0
    ensures token in ring <==> Recent(recorded, |ring|, token)
  {
    if token in ring {
      var i :| 0 <= i < |ring| && ring[i] == token;
      var m := RemainderInWindow(|recorded|, |ring|, i);
      assert At(recorded, m) == token;
    }
    if Recent(recorded, |ring|, token) {
      var m :| 0 <= m < |recorded| && |recorded| - |ring| <= m && recorded[m] == token;
      assert ring[m % |ring|] == At(recorded, m);
    }
  }

  lemma RecordHolds(ring: seq<u16>, cursor: nat, recorded: seq<u16>, token: u16)
    requires Holds(ring, cursor, recorded)
    ensures cursor < |ring| && Holds(ring[cursor := token], (cursor + 1) % |ring|, recorded + [token])
  {
    var n, more, next := |ring|, recorded + [token], ring[cursor := token];
    NextRemainder(|recorded|, n);
    forall m | |more| - n <= m < |more| ensures next[m % n] == At(more, m) {
      if m < |recorded| {
        RemaindersDiffer(m, |recorded|, n);
        assert ring[m % n] == At(recorded, m);
      }
    }
  }

  // ---------------------------------------------------------------------------------------------
  // Repeats

  /** Equal tokens are more than `n` recordings apart. */
  predicate Separated(recorded: seq<u16>, n: nat)
  {
    forall i, j :: 0 <= i < j < |recorded| && recorded[i] == recorded[j] ==> n < j - i
  }

  /** Recording keeps repeats apart exactly when the token is not among the recent ones, so the check of
      the ring must not be separated from the recording. */
  lemma SeparatedIffUnseen(recorded: seq<u16>, n: nat, token: u16)
    requires Separated(recorded, n)
    ensures Separated(recorded + [token], n) <==> !Recent(recorded, n, token)
  {
    var more := recorded + [token];
    if m :| 0 <= m < |recorded| && |recorded| - n <= m && recorded[m] == token {
      assert more[m] == more[|recorded|];
    }
  }

  function TokensIn(recorded: seq<u16>, from: nat, end: nat): set<u16>
    requires end <= |recorded|
  {
    set k | from <= k < end :: recorded[k]
  }

  lemma {:induction false} WindowIsDistinct(recorded: seq<u16>, n: nat, from: nat, end: nat)
    requires Separated(recorded, n) && from <= end <= from + n && end <= |recorded|
    ensures |TokensIn(recorded, from, end)| == end - from
    decreases end
  {
    if end == from {
    } else {
      WindowIsDistinct(recorded, n, from, end - 1);
      var last := recorded[end - 1];
      assert last !in TokensIn(recorded, from, end - 1);
      assert TokensIn(recorded, from, end) == TokensIn(recorded, from, end - 1) + {last};
    }
  }

  lemma SubsetSize(a: set<u16>, b: set<u16>)
    requires a <= b
    ensures |a| <= |b|
  {
    assert b == a + (b - a);
  }

  /** Between two recordings of one token at least `n` different other tokens were recorded. */
  lemma ManyBetweenRepeats(recorded: seq<u16>, n: nat, i: nat, j: nat)
    requires Separated(recorded, n) && i < j < |recorded| && recorded[i] == recorded[j]
    ensures |TokensIn(recorded, i + 1, j) - {recorded[j]}| >= n
  {
    WindowIsDistinct(recorded, n, j - n, j);
    var near, all := TokensIn(recorded, j - n, j), TokensIn(recorded, i + 1, j) - {recorded[j]};
    forall token | token in near ensures token in all {
      var k :| j - n <= k < j && recorded[k] == token;
    }
    SubsetSize(near, all);
  }
}
