/**
 * A Python dict filled by a sequence of `d[k] = v` statements: later writes
 * overwrite earlier ones.
 */
module Dicts {

  /** The dict that results from executing the writes, in order, on `{}`. */
  function Assign<K, V>(writes: seq<(K, V)>): map<K, V>
    decreases |writes|
  {
    if writes == [] then map[]
    else Assign(writes[..|writes| - 1])[writes[|writes| - 1].0 := writes[|writes| - 1].1]
  }

  /** Executing one more write. */
  lemma AssignSnoc<K, V>(writes: seq<(K, V)>, w: (K, V))
    ensures Assign(writes + [w]) == Assign(writes)[w.0 := w.1]
  {
    assert (writes + [w])[..|writes|] == writes;
  }

  /** A key is in the dict exactly when some write used it. */
  lemma {:induction false} AssignKeys<K, V>(writes: seq<(K, V)>)
    ensures forall k :: k in Assign(writes) ==> exists i :: 0 <= i < |writes| && writes[i].0 == k
    ensures forall i :: 0 <= i < |writes| ==> writes[i].0 in Assign(writes)
    decreases |writes|
  {
    if writes != [] {
      var init := writes[..|writes| - 1];
      AssignKeys(init);
      forall i | 0 <= i < |writes| - 1
        ensures writes[i].0 in Assign(writes)
      {
        assert init[i] == writes[i];
      }
      forall k | k in Assign(writes)
        ensures exists i :: 0 <= i < |writes| && writes[i].0 == k
      {
        if k != writes[|writes| - 1].0 {
          assert k in Assign(init);
          var i :| 0 <= i < |init| && init[i].0 == k;
          assert writes[i].0 == k;
        }
      }
    }
  }

  /** The value stored under a key is that of the last write to it. */
  lemma {:induction false} AssignLastWrite<K, V>(writes: seq<(K, V)>, i: nat)
    requires i < |writes|
    requires forall j :: i < j < |writes| ==> writes[j].0 != writes[i].0
    ensures writes[i].0 in Assign(writes) && Assign(writes)[writes[i].0] == writes[i].1
    decreases |writes|
  {
    if i < |writes| - 1 {
      var init := writes[..|writes| - 1];
      AssignLastWrite(init, i);
    }
  }

  /** Write `i` stores `v` under `k`, and no later write uses `k`. */
  ghost predicate LastWrite<K, V>(writes: seq<(K, V)>, i: nat, k: K, v: V) {
    i < |writes| && writes[i] == (k, v) && forall j :: i < j < |writes| ==> writes[j].0 != k
  }

  /** Every entry of the dict comes from a write that no later write overrides. */
  lemma {:induction false} AssignEntry<K, V>(writes: seq<(K, V)>, k: K)
    requires k in Assign(writes)
    ensures exists i: nat :: LastWrite(writes, i, k, Assign(writes)[k])
    decreases |writes|
  {
    var last := |writes| - 1;
    if writes[last].0 == k {
      assert LastWrite(writes, last, k, Assign(writes)[k]);
    } else {
      var init := writes[..last];
      assert Assign(writes)[k] == Assign(init)[k];
      AssignEntry(init, k);
      var i: nat :| LastWrite(init, i, k, Assign(init)[k]);
      forall j | i < j < |writes| ensures writes[j].0 != k {
        if j < last {
          assert writes[j] == init[j];
        }
      }
      assert writes[i] == init[i];
      assert LastWrite(writes, i, k, Assign(writes)[k]);
    }
  }

  /** Executing two runs of writes: the second run's keys override the first's. */
  lemma {:induction false} AssignAppend<K, V>(a: seq<(K, V)>, b: seq<(K, V)>)
    ensures Assign(a + b) == Assign(a) + Assign(b)
    decreases |b|
  {
    if b == [] {
      assert a + b == a;
    } else {
      var b' := b[..|b| - 1];
      var w := b[|b| - 1];
      assert a + b == (a + b') + [w];
      assert b == b' + [w];
      AssignSnoc(a + b', w);
      AssignSnoc(b', w);
      AssignAppend(a, b');
    }
  }

  /** Updating a union updates its right operand. */
  lemma UnionUpdate<K, V>(a: map<K, V>, b: map<K, V>, k: K, v: V)
    ensures (a + b)[k := v] == a + b[k := v]
  {
  }

  /** Writing one key is a union with a one-entry dict. */
  lemma UpdateIsUnion<K, V>(m: map<K, V>, k: K, v: V)
    ensures m[k := v] == m + map[k := v]
  {
  }

  lemma UnionAssociative<K, V>(a: map<K, V>, b: map<K, V>, c: map<K, V>)
    ensures (a + b) + c == a + (b + c)
  {
  }

  /** The writes of a loop whose iterations perform the writes `ws[0]`, `ws[1]`, … in turn. */
  function Concat<K, V>(ws: seq<seq<(K, V)>>): seq<(K, V)>
    decreases |ws|
  {
    if ws == [] then [] else Concat(ws[..|ws| - 1]) + ws[|ws| - 1]
  }

  /** Executing no write or one more write. */
  lemma AssignAtMostOne<K, V>(writes: seq<(K, V)>, w: seq<(K, V)>)
    requires |w| <= 1
    ensures w == [] ==> Assign(writes + w) == Assign(writes)
    ensures w != [] ==> Assign(writes + w) == Assign(writes)[w[0].0 := w[0].1]
  {
    if w == [] {
      assert writes + w == writes;
    } else {
      assert w == [w[0]];
      AssignSnoc(writes, w[0]);
    }
  }

  /** Iteration `i` writes `v` under `k`, and no later iteration writes `k`. */
  ghost predicate LastIteration<K, V>(ws: seq<seq<(K, V)>>, i: nat, k: K, v: V) {
    i < |ws| && ws[i] == [(k, v)] && forall j :: i < j < |ws| ==> ws[j] == [] || ws[j][0].0 != k
  }

  /**
   * When each iteration writes at most once, every entry of the dict comes
   * from the last iteration that wrote its key.
   */
  lemma {:induction false} ConcatEntry<K, V>(ws: seq<seq<(K, V)>>, k: K)
    requires forall i :: 0 <= i < |ws| ==> |ws[i]| <= 1
    requires k in Assign(Concat(ws))
    ensures exists i: nat :: LastIteration(ws, i, k, Assign(Concat(ws))[k])
    decreases |ws|
  {
    var n := |ws| - 1;
    var init := ws[..n];
    assert Concat(ws) == Concat(init) + ws[n];
    AssignAtMostOne(Concat(init), ws[n]);
    if ws[n] != [] && ws[n][0].0 == k {
      assert ws[n] == [ws[n][0]];
      assert LastIteration(ws, n, k, Assign(Concat(ws))[k]);
    } else {
      assert Assign(Concat(ws))[k] == Assign(Concat(init))[k];
      forall i | 0 <= i < |init| ensures |init[i]| <= 1 {
        assert init[i] == ws[i];
      }
      ConcatEntry(init, k);
      var i: nat :| LastIteration(init, i, k, Assign(Concat(init))[k]);
      forall j | i < j < |ws| ensures ws[j] == [] || ws[j][0].0 != k {
        if j < n {
          assert ws[j] == init[j];
        }
      }
      assert ws[i] == init[i];
      assert LastIteration(ws, i, k, Assign(Concat(ws))[k]);
    }
  }

  /** An iteration whose key no later iteration writes decides that key's value. */
  lemma {:induction false} ConcatLastWins<K, V>(ws: seq<seq<(K, V)>>, i: nat)
    requires forall j :: 0 <= j < |ws| ==> |ws[j]| <= 1
    requires i < |ws| && ws[i] != []
    requires forall j :: i < j < |ws| ==> ws[j] == [] || ws[j][0].0 != ws[i][0].0
    ensures ws[i][0].0 in Assign(Concat(ws)) && Assign(Concat(ws))[ws[i][0].0] == ws[i][0].1
    decreases |ws|
  {
    var n := |ws| - 1;
    var init := ws[..n];
    assert Concat(ws) == Concat(init) + ws[n];
    AssignAtMostOne(Concat(init), ws[n]);
    if i < n {
      forall j | 0 <= j < |init| ensures |init[j]| <= 1 {
        assert init[j] == ws[j];
      }
      forall j | i < j < |init| ensures init[j] == [] || init[j][0].0 != init[i][0].0 {
        assert init[j] == ws[j];
      }
      ConcatLastWins(init, i);
    }
  }
}
