// Start/done matching: a start stores a value under a key, a done looks the key up and
// removes it. What a done finds is the last stored start of its key that no earlier done
// of the same key has taken.
module StartDone {
  import opened Types

  // stored is false when the map refused the insert; such a start leaves no trace.
  datatype Op<K, V> = Start(key: K, value: V, stored: bool) | Done(key: K)

  function Apply<K(==), V>(m: map<K, V>, op: Op<K, V>): map<K, V> {
    if op.Done? then m - {op.key} else if op.stored then m[op.key := op.value] else m
  }

  // The map after a history of operations.
  function Open<K(==), V>(history: seq<Op<K, V>>): map<K, V> {
    if history == [] then map[] else Apply(Open(history[..|history| - 1]), history[|history| - 1])
  }

  // The i-th operation is the start that a done of k arriving now would match.
  predicate Matching<K(==), V>(history: seq<Op<K, V>>, k: K, i: nat) {
    && i < |history| && history[i].Start? && history[i].key == k && history[i].stored
    && forall j :: i < j < |history| && history[j].key == k ==> history[j].Start? && !history[j].stored
  }

  lemma {:induction false} OpenIsMatching<K, V>(history: seq<Op<K, V>>, k: K)
    ensures k in Open(history) <==> exists i: nat :: Matching(history, k, i)
    ensures forall i: nat :: Matching(history, k, i) ==> k in Open(history) && Open(history)[k] == history[i].value
  {
    if history != [] {
      var n := |history| - 1;
      OpenIsMatching(history[..n], k);
      var last := history[n];
      if last.key == k && (last.Done? || last.stored) {
        if last.Start? {
          assert Matching(history, k, n);
        }
        forall i: nat | Matching(history, k, i)
          ensures i == n
        {
        }
      } else {
        forall i: nat
          ensures Matching(history, k, i) <==> Matching(history[..n], k, i)
        {
          MatchingSnoc(history, k, i);
        }
      }
    }
  }

  lemma MatchingSnoc<K, V>(history: seq<Op<K, V>>, k: K, i: nat)
    requires history != []
    requires history[|history| - 1].key != k || (history[|history| - 1].Start? && !history[|history| - 1].stored)
    ensures Matching(history, k, i) <==> Matching(history[..|history| - 1], k, i)
  {
    var n := |history| - 1;
    if Matching(history[..n], k, i) {
      forall j | i < j < |history| && history[j].key == k
        ensures history[j].Start? && !history[j].stored
      {
        assert j < n ==> history[..n][j] == history[j];
      }
    }
  }

  lemma OpenSnoc<K, V>(history: seq<Op<K, V>>, op: Op<K, V>)
    ensures Open(history + [op]) == Apply(Open(history), op)
  {
    assert (history + [op])[..|history|] == history;
  }

  // What a done of k arriving now would find.
  function LastOpen<K(==), V>(history: seq<Op<K, V>>, k: K): Option<V> {
    if k in Open(history) then Some(Open(history)[k]) else None
  }

  lemma LastOpenSnoc<K, V>(history: seq<Op<K, V>>, op: Op<K, V>, k: K)
    ensures LastOpen(history + [op], k) ==
      if op.key != k || (op.Start? && !op.stored) then LastOpen(history, k)
      else if op.Done? then None else Some(op.value)
  {
    hide Open;
    OpenSnoc(history, op);
  }

  // It finds a value exactly when some recorded start with the identical key precedes it
  // with no done and no other recorded start of that key in between, and then that one's.
  lemma LastOpenMeans<K, V>(history: seq<Op<K, V>>, k: K, v: V)
    ensures LastOpen(history, k) == Some(v) <==> exists i: nat :: Matching(history, k, i) && history[i].value == v
    ensures LastOpen(history, k) == None <==> !exists i: nat :: Matching(history, k, i)
  {
    hide Open;
    OpenIsMatching(history, k);
  }
}
