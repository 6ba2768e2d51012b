/**
 * Sequence and map helpers that the reference definitions of the model are built from.
 * `Collect` is a filter-and-map written head first, so that it is independent of the
 * left-to-right loops of the source that the model proves against it.
 */
module Collections {

  /** The concatenation, in order, of what `pick` selects from each element of `xs`. */
  function Collect<A, T>(xs: seq<A>, pick: A -> seq<T>): seq<T>
  {
    if xs == [] then [] else pick(xs[0]) + Collect(xs[1..], pick)
  }

  lemma {:induction false} CollectAppend<A, T>(xs: seq<A>, ys: seq<A>, pick: A -> seq<T>)
    ensures Collect(xs + ys, pick) == Collect(xs, pick) + Collect(ys, pick)
  {
    if xs == [] {
      assert xs + ys == ys;
    } else {
      assert (xs + ys)[1..] == xs[1..] + ys;
      CollectAppend(xs[1..], ys, pick);
    }
  }

  lemma CollectOne<A, T>(x: A, pick: A -> seq<T>)
    ensures Collect([x], pick) == pick(x)
  {
    assert [x][1..] == [];
  }

  lemma AppendAssociative<T>(x: seq<T>, y: seq<T>, z: seq<T>)
    ensures (x + y) + z == x + (y + z)
  {
  }

  /** Appending one element appends exactly what `pick` selects from it. */
  lemma CollectSnoc<A, T>(xs: seq<A>, x: A, pick: A -> seq<T>)
    ensures Collect(xs + [x], pick) == Collect(xs, pick) + pick(x)
  {
    CollectAppend(xs, [x], pick);
    assert [x][1..] == [];
  }

  /** The last element of `xs`, or `default` when there is none. */
  function Latest<T>(xs: seq<T>, default: T): T
  {
    if xs == [] then default else xs[|xs| - 1]
  }

  lemma LatestAppend<T>(xs: seq<T>, ys: seq<T>, default: T)
    ensures Latest(xs + ys, default) == Latest(ys, Latest(xs, default))
  {
    if ys != [] {
      assert (xs + ys)[|xs + ys| - 1] == ys[|ys| - 1];
    } else {
      assert xs + ys == xs;
    }
  }

  /** The first element of `xs`, or `default` when there is none. */
  function Earliest<T>(xs: seq<T>, default: T): T
  {
    if xs == [] then default else xs[0]
  }

  lemma EarliestAppend<T>(xs: seq<T>, ys: seq<T>, default: T)
    ensures Earliest(xs + ys, default) == if xs == [] then Earliest(ys, default) else xs[0]
  {
    if xs == [] {
      assert xs + ys == ys;
    }
  }

  /**
   * Inserts the pairs into `m` from first to last, as a loop of `m[k] = v` assignments does:
   * a later pair overwrites an earlier one with the same key.
   */
  function InsertAll<K, V>(m: map<K, V>, pairs: seq<(K, V)>): map<K, V>
  {
    if pairs == [] then m
    else
      var last := pairs[|pairs| - 1];
      InsertAll(m, pairs[..|pairs| - 1])[last.0 := last.1]
  }

  /**
   * Starting from an empty map, a key is present exactly when some pair carries it, and it
   * maps to the value of the LAST pair that carries it.
   */
  lemma {:induction false} InsertAllLookup<K, V>(pairs: seq<(K, V)>, k: K)
    ensures k in InsertAll(map[], pairs) <==> exists i :: 0 <= i < |pairs| && pairs[i].0 == k
    ensures k in InsertAll(map[], pairs) ==>
      exists i :: 0 <= i < |pairs| && pairs[i].0 == k && InsertAll(map[], pairs)[k] == pairs[i].1 &&
        forall j :: i < j < |pairs| ==> pairs[j].0 != k
  {
    if pairs != [] {
      var n := |pairs| - 1;
      var init := pairs[..n];
      InsertAllLookup(init, k);
      if pairs[n].0 == k {
        assert InsertAll(map[], pairs)[k] == pairs[n].1;
      } else {
        if k in InsertAll(map[], init) {
          var i :| 0 <= i < |init| && init[i].0 == k && InsertAll(map[], init)[k] == init[i].1 &&
            forall j :: i < j < |init| ==> init[j].0 != k;
          assert pairs[i] == init[i];
          assert forall j :: i < j < |pairs| ==> pairs[j].0 != k by {
            forall j | i < j < |pairs| ensures pairs[j].0 != k {
              if j < n { assert pairs[j] == init[j]; }
            }
          }
        }
        assert (exists i :: 0 <= i < |pairs| && pairs[i].0 == k) ==> exists i :: 0 <= i < |init| && init[i].0 == k by {
          if exists i :: 0 <= i < |pairs| && pairs[i].0 == k {
            var i :| 0 <= i < |pairs| && pairs[i].0 == k;
            assert i < n && init[i] == pairs[i];
          }
        }
      }
    }
  }

  /** Inserting at most one more pair is one map update, or none. */
  lemma InsertAllOne<K, V>(m: map<K, V>, pairs: seq<(K, V)>, more: seq<(K, V)>)
    requires |more| <= 1
    ensures InsertAll(m, pairs + more) ==
      if more == [] then InsertAll(m, pairs) else InsertAll(m, pairs)[more[0].0 := more[0].1]
  {
    if more == [] {
      assert pairs + more == pairs;
    } else {
      assert (pairs + more)[..|pairs + more| - 1] == pairs;
    }
  }

  /** When nothing before `xs[i]` contributes, the collection starts with what `xs[i]` contributes. */
  lemma CollectFirst<A, T>(xs: seq<A>, i: nat, pick: A -> seq<T>)
    requires i < |xs|
    requires Collect(xs[..i], pick) == [] && pick(xs[i]) != []
    ensures Collect(xs, pick) != [] && Collect(xs, pick)[0] == pick(xs[i])[0]
  {
    assert xs == xs[..i] + ([xs[i]] + xs[i + 1..]);
    CollectAppend(xs[..i], [xs[i]] + xs[i + 1..], pick);
    CollectAppend([xs[i]], xs[i + 1..], pick);
    CollectOne(xs[i], pick);
  }

  /**
   * One step of a walk that stops at the first error and otherwise inserts what each element
   * contributes: an element without error extends both the error-free prefix and the map.
   */
  lemma InsertStep<A, K, V, E>(xs: seq<A>, i: nat, errors: A -> seq<E>, inserts: A -> seq<(K, V)>,
                               m: map<K, V>, more: seq<(K, V)>)
    requires i < |xs| && |more| <= 1 && more == inserts(xs[i]) && errors(xs[i]) == []
    requires Collect(xs[..i], errors) == [] && m == InsertAll(map[], Collect(xs[..i], inserts))
    ensures Collect(xs[..i + 1], errors) == []
    ensures InsertAll(map[], Collect(xs[..i + 1], inserts)) ==
      if more == [] then m else m[more[0].0 := more[0].1]
  {
    assert xs[..i + 1] == xs[..i] + [xs[i]];
    CollectSnoc(xs[..i], xs[i], errors);
    CollectSnoc(xs[..i], xs[i], inserts);
    InsertAllOne(map[], Collect(xs[..i], inserts), more);
  }
}
