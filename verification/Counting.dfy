// How many keys of a map carry a given value: the cardinality that the tracer's
// per-CPU counters stand for.
module Counting {
  import opened Types

  ghost function KeysAt(m: map<u32, u32>, c: int): set<u32> {
    set t | t in m && m[t] == c
  }

  ghost function CountAt(m: map<u32, u32>, c: int): nat {
    |KeysAt(m, c)|
  }

  lemma CountAfterRemove(m: map<u32, u32>, t: u32, c: int)
    ensures CountAt(m - {t}, c) == CountAt(m, c) - (if t in m && m[t] == c then 1 else 0)
  {
    if t in m && m[t] == c {
      assert KeysAt(m, c) == KeysAt(m - {t}, c) + {t};
    } else {
      assert KeysAt(m, c) == KeysAt(m - {t}, c);
    }
  }

  lemma CountAfterPut(m: map<u32, u32>, t: u32, d: u32, c: int)
    ensures CountAt(m[t := d], c)
         == CountAt(m, c) - (if t in m && m[t] == c then 1 else 0) + (if c == d then 1 else 0)
  {
    CountAfterRemove(m, t, c);
    if c == d {
      assert KeysAt(m[t := d], c) == KeysAt(m - {t}, c) + {t};
    } else {
      assert KeysAt(m[t := d], c) == KeysAt(m - {t}, c);
    }
  }

  lemma CountPositive(m: map<u32, u32>, t: u32)
    requires t in m
    ensures CountAt(m, m[t]) >= 1
  {
    assert t in KeysAt(m, m[t]);
  }

  // A set of integers below n has at most n elements.
  lemma {:induction false} BoundedSet(s: set<u32>, n: nat)
    requires forall x :: x in s ==> x < n
    ensures |s| <= n
  {
    if n == 0 {
      assert s == {};
    } else if (n - 1) in s {
      BoundedSet(s - {n - 1}, n - 1);
    } else {
      BoundedSet(s, n - 1);
    }
  }

  // Sum of the first n per-value counts.
  ghost function TotalBelow(m: map<u32, u32>, n: nat): nat {
    if n == 0 then 0 else TotalBelow(m, n - 1) + CountAt(m, n - 1)
  }

  ghost function KeysBelow(m: map<u32, u32>, n: nat): set<u32> {
    set t | t in m && m[t] < n
  }

  lemma {:induction false} TotalIsSize(m: map<u32, u32>, n: nat)
    ensures TotalBelow(m, n) == |KeysBelow(m, n)|
  {
    if n > 0 {
      TotalIsSize(m, n - 1);
      assert KeysBelow(m, n) == KeysBelow(m, n - 1) + KeysAt(m, n - 1);
      assert KeysBelow(m, n - 1) !! KeysAt(m, n - 1);
    } else {
      assert KeysBelow(m, n) == {};
    }
  }
}
