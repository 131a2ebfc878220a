/**
  The search loop both reconciliation scripts use to find a record in an inventory listing:

      for record in listing:
          seen.add(key(record))
          if key(record) == target:
              found = True
              try: record.update(...); break
              except Exception: pass

  The loop stops right after the first matching record whose update succeeds; when the update
  raises, or nothing matches, it runs to the end of the listing. Everything it passes over is
  added to `seen`, so which records end up in `seen` depends on the listing's order.
*/
module Scan {

  /** No element occurs twice (an inventory listing returns each record once). */
  predicate Distinct<T(==)>(s: seq<T>)
  {
    forall i, j :: 0 <= i < j < |s| ==> s[i] != s[j]
  }

  /** The elements of a sequence, as a set. */
  function Elements<T>(s: seq<T>): set<T>
  {
    set x | x in s
  }

  /**
    How many entries of `keys` the search loop visits when looking for `target`, given whether
    the update on a match succeeds.
  */
  function Visited<T(==)>(keys: seq<T>, target: T, updates: bool): (k: nat)
    ensures k <= |keys|
    ensures updates && target in keys ==> 0 < k && keys[k - 1] == target && target !in keys[..k - 1]
    ensures !(updates && target in keys) ==> k == |keys|
  {
    if keys == [] then 0
    else if keys[0] == target && updates then 1
    else
      assert keys[0] != target ==> (target in keys <==> target in keys[1..]);
      1 + Visited(keys[1..], target, updates)
  }

  /** One step of the search loop: stop on a match that updates, otherwise count this entry and go on. */
  lemma VisitedStep<T>(keys: seq<T>, k: nat, target: T, updates: bool)
    requires k < |keys|
    ensures Visited(keys[k..], target, updates) ==
              if keys[k] == target && updates then 1 else 1 + Visited(keys[k + 1..], target, updates)
  {
    assert keys[k..][1..] == keys[k + 1..];
  }

  /**
    The search loop itself: whether some entry matches, and how many entries it passes over
    before it breaks (the entry at `k - 1` is the match when it breaks).
  */
  method Search<T(==)>(keys: seq<T>, target: T, updates: bool) returns (found: bool, k: nat)
    ensures found == (target in keys)
    ensures k == Visited(keys, target, updates)
  {
    found := false;
    k := 0;
    while k < |keys|
      invariant k <= |keys|
      invariant found == (target in keys[..k])
      invariant !(found && updates)
      invariant Visited(keys[k..], target, updates) + k == Visited(keys, target, updates)
    {
      VisitedStep(keys, k, target, updates);
      assert keys[..k + 1] == keys[..k] + [keys[k]];
      if keys[k] == target {
        found := true;
        if updates {
          k := k + 1;
          assert keys[..k] <= keys;
          return;
        }
      }
      k := k + 1;
    }
    assert keys[..k] == keys;
  }

  /** In a listing without duplicates the loop never revisits the match, so only what lies after it is skipped. */
  lemma {:induction false} VisitedSkipsOnlyAfterMatch<T>(keys: seq<T>, target: T, updates: bool, i: nat)
    requires Distinct(keys)
    requires i < |keys|
    ensures i >= Visited(keys, target, updates) <==>
              (updates && target in keys && exists j :: 0 <= j < i && keys[j] == target)
  {
    var k := Visited(keys, target, updates);
    if updates && target in keys {
      assert keys[k - 1] == target;
      if i >= k {
        assert keys[k - 1] == target && 0 <= k - 1 < i;
      } else {
        forall j | 0 <= j < i
          ensures keys[j] != target
        {
          assert keys[j] in keys[..k - 1];
        }
      }
    }
  }
}
