/**
 * Keyed warehouse tables and the one statement every layer of the pipeline runs
 * against them:
 *
 *   MERGE INTO target USING source ON target.key = source.key
 *     WHEN MATCHED THEN UPDATE SET <every column from source>
 *     WHEN NOT MATCHED THEN INSERT <every column from source>
 *
 * There is no delete branch.  A NULL key never satisfies the ON condition, so a
 * source row with a NULL key is always inserted and a target row with a NULL key
 * is never updated.
 */
module Upsert {
  import opened Wrappers

  /** A table matched on one key column.  Rows with a non-NULL key are found under
      that key in `keyed` (at most one row per key); rows whose key is NULL are
      kept, in arrival order, in `unkeyed`. */
  datatype Table<K, R> = Table(keyed: map<K, R>, unkeyed: seq<R>)

  /** The table agrees with its key column. */
  ghost predicate WellKeyed<K, R>(t: Table<K, R>, key: R -> Option<K>)
  {
    && (forall k :: k in t.keyed ==> key(t.keyed[k]) == Some(k))
    && (forall i :: 0 <= i < |t.unkeyed| ==> key(t.unkeyed[i]) == None)
  }

  /** No two rows carry the same non-NULL key.  Only then does MERGE determine the
      row a matched key ends up with. */
  ghost predicate DistinctKeys<K, R>(rows: seq<R>, key: R -> Option<K>)
  {
    forall i, j :: 0 <= i < j < |rows| && key(rows[i]).Some? ==> key(rows[i]) != key(rows[j])
  }

  /** Every row carries a non-NULL key. */
  ghost predicate AllKeyed<K, R>(rows: seq<R>, key: R -> Option<K>)
  {
    forall i :: 0 <= i < |rows| ==> key(rows[i]).Some?
  }

  /** The non-NULL keys that occur in `rows`. */
  ghost function KeysOf<K, R>(rows: seq<R>, key: R -> Option<K>): set<K>
  {
    if rows == [] then {}
    else (match key(rows[0]) case None => {} case Some(k) => {k}) + KeysOf(rows[1..], key)
  }

  /** The rows with a non-NULL key, indexed by it. */
  function KeyedRows<K, R>(rows: seq<R>, key: R -> Option<K>): map<K, R>
  {
    if rows == [] then map[]
    else
      var rest := KeyedRows(rows[1..], key);
      match key(rows[0])
      case None => rest
      case Some(k) => rest[k := rows[0]]
  }

  /** The rows with a NULL key, in order. */
  function UnkeyedRows<K, R>(rows: seq<R>, key: R -> Option<K>): seq<R>
  {
    if rows == [] then []
    else (if key(rows[0]).None? then [rows[0]] else []) + UnkeyedRows(rows[1..], key)
  }

  /** A source subquery seen as a table.  Defined only for distinct keys. */
  function FromRows<K, R>(rows: seq<R>, key: R -> Option<K>): Table<K, R>
    requires DistinctKeys(rows, key)
  {
    Table(KeyedRows(rows, key), UnkeyedRows(rows, key))
  }

  /** MERGE INTO target USING source: a matched key takes the source row, an
      unmatched source row is inserted, a target row the source does not match
      stays, and every NULL-keyed source row is inserted. */
  function Merge<K, R>(target: Table<K, R>, source: Table<K, R>): Table<K, R>
  {
    Table(target.keyed + source.keyed, target.unkeyed + source.unkeyed)
  }

  /** SELECT f(row) FROM t: a projection keeping each row's place. */
  function Project<K, R, S>(t: Table<K, R>, f: R -> S): Table<K, S>
  {
    Table(map k | k in t.keyed :: f(t.keyed[k]), MapRows(t.unkeyed, f))
  }

  function MapRows<R, S>(rows: seq<R>, f: R -> S): (r: seq<S>)
    ensures |r| == |rows|
    ensures forall i :: 0 <= i < |rows| ==> r[i] == f(rows[i])
  {
    seq(|rows|, i requires 0 <= i < |rows| => f(rows[i]))
  }

  /** SELECT ... FROM raw WHERE <gate>: the raw rows `clean` accepts, converted to
      clean rows, in their order.  `clean` returns None for a row the gate rejects. */
  function Gate<B, R>(rows: seq<B>, clean: B -> Option<R>): (src: seq<R>)
    ensures |src| <= |rows|
    ensures forall r :: r in src ==> exists i :: 0 <= i < |rows| && clean(rows[i]) == Some(r)
    ensures forall i :: 0 <= i < |rows| && clean(rows[i]).Some? ==> clean(rows[i]).value in src
  {
    if rows == [] then []
    else
      var rest := Gate(rows[1..], clean);
      assert forall r :: r in rest ==> exists i :: 0 <= i < |rows| && clean(rows[i]) == Some(r) by {
        forall r | r in rest ensures exists i :: 0 <= i < |rows| && clean(rows[i]) == Some(r) {
          var j :| 0 <= j < |rows[1..]| && clean(rows[1..][j]) == Some(r);
          assert clean(rows[j + 1]) == Some(r);
        }
      }
      assert forall i :: 1 <= i < |rows| && clean(rows[i]).Some? ==> clean(rows[i]).value in rest by {
        forall i | 1 <= i < |rows| && clean(rows[i]).Some? ensures clean(rows[i]).value in rest {
          assert rows[i] == rows[1..][i - 1];
        }
      }
      (match clean(rows[0]) case None => [] case Some(r) => [r]) + rest
  }

  /** The gate that passes only the accepted rows whose key is NULL. */
  function AcceptedUnkeyed<K, B, R>(clean: B -> Option<R>, key: R -> Option<K>): B -> Option<R>
  {
    b => if clean(b).Some? && key(clean(b).value).None? then clean(b) else None
  }

  /** `n` copies of `s`, one after the other. */
  function Repeat<T>(s: seq<T>, n: nat): (r: seq<T>)
    ensures |r| == n * |s|
  {
    if n == 0 then [] else
      assert (n - 1) * |s| + |s| == n * |s|;
      Repeat(s, n - 1) + s
  }

  /** The same MERGE run `n` times in a row, as repeated scheduled runs do. */
  function MergeRepeated<K, R>(target: Table<K, R>, source: Table<K, R>, n: nat): Table<K, R>
  {
    if n == 0 then target else Merge(MergeRepeated(target, source, n - 1), source)
  }

  // ---------------------------------------------------------------------------
  // The gate, row by row

  /** The gate decides row by row: gating a concatenation is gating each part,
      in order.  With the one-row case below, this fixes the order and the
      multiplicity of the rows that pass. */
  lemma {:induction false} GateAppend<B, R>(a: seq<B>, b: seq<B>, clean: B -> Option<R>)
    ensures Gate(a + b, clean) == Gate(a, clean) + Gate(b, clean)
  {
    if a == [] {
      assert a + b == b;
    } else {
      assert (a + b)[1..] == a[1..] + b;
      GateAppend(a[1..], b, clean);
    }
  }

  /** Gating one more raw row appends its converted form when it passes, and
      nothing when it is rejected. */
  lemma GateLast<B, R>(rows: seq<B>, clean: B -> Option<R>)
    requires rows != []
    ensures Gate(rows, clean) ==
      Gate(rows[..|rows| - 1], clean) + (match clean(rows[|rows| - 1]) case None => [] case Some(r) => [r])
  {
    var n := |rows| - 1;
    assert rows == rows[..n] + [rows[n]];
    GateAppend(rows[..n], [rows[n]], clean);
  }

  /** Every raw row passes exactly when the gate drops none. */
  lemma {:induction false} GateKeepsAll<B, R>(rows: seq<B>, clean: B -> Option<R>)
    ensures |Gate(rows, clean)| == |rows| <==> forall i :: 0 <= i < |rows| ==> clean(rows[i]).Some?
  {
    if rows != [] {
      GateKeepsAll(rows[1..], clean);
      var rest := rows[1..];
      if forall i :: 0 <= i < |rows| ==> clean(rows[i]).Some? {
        forall i | 0 <= i < |rest| ensures clean(rest[i]).Some? { assert rest[i] == rows[i + 1]; }
      }
      if |Gate(rows, clean)| == |rows| {
        assert |Gate(rest, clean)| <= |rest|;
        forall i | 0 <= i < |rows| ensures clean(rows[i]).Some? {
          if i > 0 { assert rows[i] == rest[i - 1]; }
        }
      }
    }
  }

  // ---------------------------------------------------------------------------
  // The source subquery as a table

  lemma {:induction false} KeysOfMember<K, R>(rows: seq<R>, key: R -> Option<K>, k: K)
    ensures k in KeysOf(rows, key) <==> exists i :: 0 <= i < |rows| && key(rows[i]) == Some(k)
  {
    if rows != [] {
      KeysOfMember(rows[1..], key, k);
      if key(rows[0]) != Some(k) && k in KeysOf(rows, key) {
        var i :| 0 <= i < |rows[1..]| && key(rows[1..][i]) == Some(k);
        assert key(rows[i + 1]) == Some(k);
      }
      if exists i :: 0 <= i < |rows| && key(rows[i]) == Some(k) {
        var i :| 0 <= i < |rows| && key(rows[i]) == Some(k);
        if i > 0 {
          assert key(rows[1..][i - 1]) == Some(k);
        }
      }
    }
  }

  /** The keyed part of a source holds exactly the source's non-NULL keys, and,
      when the keys are distinct, the source row that carries each one. */
  lemma {:induction false} KeyedRowsSpec<K, R>(rows: seq<R>, key: R -> Option<K>)
    requires DistinctKeys(rows, key)
    ensures KeyedRows(rows, key).Keys == KeysOf(rows, key)
    ensures forall i :: 0 <= i < |rows| && key(rows[i]).Some? ==>
      key(rows[i]).value in KeyedRows(rows, key) && KeyedRows(rows, key)[key(rows[i]).value] == rows[i]
  {
    if rows != [] {
      var rest := rows[1..];
      assert DistinctKeys(rest, key) by {
        forall i, j | 0 <= i < j < |rest| && key(rest[i]).Some?
          ensures key(rest[i]) != key(rest[j])
        {
          assert rest[i] == rows[i + 1] && rest[j] == rows[j + 1];
        }
      }
      KeyedRowsSpec(rest, key);
      forall i | 0 <= i < |rows| && key(rows[i]).Some?
        ensures key(rows[i]).value in KeyedRows(rows, key) && KeyedRows(rows, key)[key(rows[i]).value] == rows[i]
      {
        if i > 0 {
          assert rows[i] == rest[i - 1];
          assert key(rows[0]) != key(rows[i]);
        }
      }
    }
  }

  /** A keyed source row is found under its key. */
  lemma KeyedRowsHas<K, R>(rows: seq<R>, key: R -> Option<K>, r: R)
    requires DistinctKeys(rows, key)
    requires r in rows && key(r).Some?
    ensures key(r).value in KeyedRows(rows, key) && KeyedRows(rows, key)[key(r).value] == r
  {
    var j :| 0 <= j < |rows| && rows[j] == r;
    KeyedRowsSpec(rows, key);
  }

  /** The unkeyed part of a source holds only NULL-keyed rows, holds every one of
      them, and is empty exactly when every source row has a key. */
  lemma {:induction false} UnkeyedRowsSpec<K, R>(rows: seq<R>, key: R -> Option<K>)
    ensures forall i :: 0 <= i < |UnkeyedRows(rows, key)| ==> key(UnkeyedRows(rows, key)[i]) == None
    ensures forall i :: 0 <= i < |rows| && key(rows[i]).None? ==> rows[i] in UnkeyedRows(rows, key)
    ensures UnkeyedRows(rows, key) == [] <==> AllKeyed(rows, key)
  {
    if rows != [] {
      var rest := rows[1..];
      UnkeyedRowsSpec(rest, key);
      forall i | 0 <= i < |rows| && key(rows[i]).None? ensures rows[i] in UnkeyedRows(rows, key) {
        if i > 0 { assert rows[i] == rest[i - 1]; }
      }
      if AllKeyed(rows, key) {
        assert AllKeyed(rest, key) by {
          forall i | 0 <= i < |rest| ensures key(rest[i]).Some? {
            assert rest[i] == rows[i + 1];
          }
        }
      }
      if UnkeyedRows(rows, key) == [] {
        forall i | 0 <= i < |rows| ensures key(rows[i]).Some? {
          if i > 0 {
            assert rows[i] == rest[i - 1];
          }
        }
      }
    }
  }

  /** The NULL-keyed rows of a concatenation are those of each part, in order. */
  lemma {:induction false} UnkeyedRowsAppend<K, R>(a: seq<R>, b: seq<R>, key: R -> Option<K>)
    ensures UnkeyedRows(a + b, key) == UnkeyedRows(a, key) + UnkeyedRows(b, key)
  {
    if a == [] {
      assert a + b == b;
    } else {
      var ab := a + b;
      assert ab[0] == a[0] && ab[1..] == a[1..] + b;
      UnkeyedRowsAppend(a[1..], b, key);
      var head := if key(a[0]).None? then [a[0]] else [];
      assert UnkeyedRows(ab, key) == head + UnkeyedRows(a[1..] + b, key);
      assert UnkeyedRows(a, key) == head + UnkeyedRows(a[1..], key);
      assert head + (UnkeyedRows(a[1..], key) + UnkeyedRows(b, key))
          == (head + UnkeyedRows(a[1..], key)) + UnkeyedRows(b, key);
    }
  }

  /** The NULL-keyed rows of a gated raw table are the raw rows that pass the gate
      with a NULL key, in raw order, one for each such raw row. */
  lemma {:induction false} UnkeyedOfGate<K, B, R>(rows: seq<B>, clean: B -> Option<R>, key: R -> Option<K>)
    ensures UnkeyedRows(Gate(rows, clean), key) == Gate(rows, AcceptedUnkeyed(clean, key))
  {
    if rows != [] {
      UnkeyedOfGate(rows[1..], clean, key);
      var head := match clean(rows[0]) case None => [] case Some(r) => [r];
      UnkeyedRowsAppend(head, Gate(rows[1..], clean), key);
      assert UnkeyedRows(head, key) == (match AcceptedUnkeyed(clean, key)(rows[0]) case None => [] case Some(r) => [r]);
    }
  }

  /** A source with distinct keys, seen as a table, agrees with its key column. */
  lemma {:induction false} FromRowsWellKeyed<K, R>(rows: seq<R>, key: R -> Option<K>)
    requires DistinctKeys(rows, key)
    ensures WellKeyed(FromRows(rows, key), key)
  {
    KeyedRowsSpec(rows, key);
    UnkeyedRowsSpec(rows, key);
    var m := KeyedRows(rows, key);
    forall k | k in m ensures key(m[k]) == Some(k) {
      KeysOfMember(rows, key, k);
      var i :| 0 <= i < |rows| && key(rows[i]) == Some(k);
    }
  }

  // ---------------------------------------------------------------------------
  // MERGE of a source subquery

  /** MERGE of a source whose non-NULL keys are distinct:
      - afterwards the keys are those of the target plus those of the source (no row is deleted);
      - a source row with key k is what the table holds under k, whether k matched or not;
      - a target row whose key the source does not carry is unchanged;
      - the NULL-keyed target rows are kept and the NULL-keyed source rows are appended. */
  lemma MergeFromRows<K, R>(target: Table<K, R>, rows: seq<R>, key: R -> Option<K>)
    requires DistinctKeys(rows, key)
    ensures Merge(target, FromRows(rows, key)).keyed.Keys == target.keyed.Keys + KeysOf(rows, key)
    ensures forall i :: 0 <= i < |rows| && key(rows[i]).Some? ==>
      && key(rows[i]).value in Merge(target, FromRows(rows, key)).keyed
      && Merge(target, FromRows(rows, key)).keyed[key(rows[i]).value] == rows[i]
    ensures forall k :: k in target.keyed && k !in KeysOf(rows, key) ==>
      Merge(target, FromRows(rows, key)).keyed[k] == target.keyed[k]
    ensures Merge(target, FromRows(rows, key)).unkeyed == target.unkeyed + UnkeyedRows(rows, key)
  {
    KeyedRowsSpec(rows, key);
    forall i | 0 <= i < |rows| && key(rows[i]).Some?
      ensures key(rows[i]).value in KeysOf(rows, key)
    {
      KeysOfMember(rows, key, key(rows[i]).value);
    }
  }

  /** MERGE keeps a table in agreement with its key column. */
  lemma MergeWellKeyed<K, R>(target: Table<K, R>, source: Table<K, R>, key: R -> Option<K>)
    requires WellKeyed(target, key) && WellKeyed(source, key)
    ensures WellKeyed(Merge(target, source), key)
  {
    var u := Merge(target, source).unkeyed;
    forall i | 0 <= i < |u| ensures key(u[i]) == None {
      if i >= |target.unkeyed| {
        assert u[i] == source.unkeyed[i - |target.unkeyed|];
      }
    }
  }

  /** Running the same MERGE again changes nothing, provided the source has no
      NULL-keyed rows. */
  lemma MergeIdempotent<K, R>(target: Table<K, R>, source: Table<K, R>)
    requires source.unkeyed == []
    ensures Merge(Merge(target, source), source) == Merge(target, source)
  {
    assert (target.keyed + source.keyed) + source.keyed == target.keyed + source.keyed;
  }

  /** Against that: every run inserts the source's NULL-keyed rows once more. */
  lemma MergeAgainAppendsUnkeyed<K, R>(target: Table<K, R>, source: Table<K, R>)
    ensures Merge(Merge(target, source), source).keyed == Merge(target, source).keyed
    ensures Merge(Merge(target, source), source).unkeyed == Merge(target, source).unkeyed + source.unkeyed
    ensures source.unkeyed != [] ==> Merge(Merge(target, source), source) != Merge(target, source)
  {
    assert (target.keyed + source.keyed) + source.keyed == target.keyed + source.keyed;
    if source.unkeyed != [] {
      assert |Merge(Merge(target, source), source).unkeyed| > |Merge(target, source).unkeyed|;
    }
  }

  /** Re-running converges: any number (at least one) of runs of the same MERGE
      over an unchanged source without NULL keys leaves the table one run leaves. */
  lemma {:induction false} RerunConverges<K, R>(target: Table<K, R>, source: Table<K, R>, n: nat)
    requires n >= 1 && source.unkeyed == []
    ensures MergeRepeated(target, source, n) == Merge(target, source)
  {
    if n > 1 {
      RerunConverges(target, source, n - 1);
      MergeIdempotent(target, source);
    }
  }

  /** With NULL-keyed source rows, `n` runs (at least one) leave the keyed part
      one run leaves, and `n` copies of the NULL-keyed source rows behind the
      target's own. */
  lemma {:induction false} RepeatedUnkeyedGrows<K, R>(target: Table<K, R>, source: Table<K, R>, n: nat)
    ensures MergeRepeated(target, source, n).unkeyed == target.unkeyed + Repeat(source.unkeyed, n)
    ensures n >= 1 ==> MergeRepeated(target, source, n).keyed == Merge(target, source).keyed
  {
    if n > 0 {
      RepeatedUnkeyedGrows(target, source, n - 1);
      assert (target.unkeyed + Repeat(source.unkeyed, n - 1)) + source.unkeyed
          == target.unkeyed + (Repeat(source.unkeyed, n - 1) + source.unkeyed);
      if n > 1 {
        assert (target.keyed + source.keyed) + source.keyed == target.keyed + source.keyed;
      }
    }
  }

  /** MERGE is associative: merging two sources one after the other gives the table
      that one merge of their right-biased combination gives, the second source winning
      on a shared key. (In the pipeline each run's source is the whole bronze table,
      so this is an algebraic law of MERGE, not a statement about separate loads.) */
  lemma MergeSequential<K, R>(target: Table<K, R>, first: Table<K, R>, second: Table<K, R>)
    ensures Merge(Merge(target, first), second) == Merge(target, Merge(first, second))
    ensures forall k :: k in second.keyed ==> Merge(Merge(target, first), second).keyed[k] == second.keyed[k]
    ensures forall k :: k in first.keyed && k !in second.keyed ==>
      Merge(Merge(target, first), second).keyed[k] == first.keyed[k]
  {
    assert (target.keyed + first.keyed) + second.keyed == target.keyed + (first.keyed + second.keyed);
    assert (target.unkeyed + first.unkeyed) + second.unkeyed == target.unkeyed + (first.unkeyed + second.unkeyed);
  }

  // ---------------------------------------------------------------------------
  // MERGE of a gated raw table (the silver layers)

  /** Some raw row that the gate accepts carries key `k`. */
  ghost predicate Accepts<K, B, R>(rows: seq<B>, clean: B -> Option<R>, key: R -> Option<K>, k: K)
  {
    exists i :: 0 <= i < |rows| && clean(rows[i]).Some? && key(clean(rows[i]).value) == Some(k)
  }

  /** Every raw row that the gate accepts carries a non-NULL key. */
  ghost predicate AcceptsOnlyKeyed<K, B, R>(rows: seq<B>, clean: B -> Option<R>, key: R -> Option<K>)
  {
    forall i :: 0 <= i < |rows| && clean(rows[i]).Some? ==> key(clean(rows[i]).value).Some?
  }

  /** The MERGE that the clean layer runs over its gated raw table. */
  function MergeGated<K, B, R>(target: Table<K, R>, rows: seq<B>, clean: B -> Option<R>, key: R -> Option<K>): Table<K, R>
    requires DistinctKeys(Gate(rows, clean), key)
  {
    Merge(target, FromRows(Gate(rows, clean), key))
  }

  /** The keys a gated raw table carries are those of the rows the gate accepts. */
  lemma KeysOfGate<K, B, R>(rows: seq<B>, clean: B -> Option<R>, key: R -> Option<K>, k: K)
    ensures k in KeysOf(Gate(rows, clean), key) <==> Accepts(rows, clean, key, k)
  {
    var src := Gate(rows, clean);
    KeysOfMember(src, key, k);
    if k in KeysOf(src, key) {
      var j :| 0 <= j < |src| && key(src[j]) == Some(k);
      assert src[j] in src;
      var i :| 0 <= i < |rows| && clean(rows[i]) == Some(src[j]);
    }
    if Accepts(rows, clean, key, k) {
      var i :| 0 <= i < |rows| && clean(rows[i]).Some? && key(clean(rows[i]).value) == Some(k);
      var r := clean(rows[i]).value;
      assert r in src;
      var j :| 0 <= j < |src| && src[j] == r;
      assert key(src[j]) == Some(k);
    }
  }

  /** Quarantine: after the gated MERGE a key is in the table exactly when it was
      before or some accepted raw row carries it; a rejected row never brings its
      key in, and no key is removed. */
  lemma MergeGatedKeys<K, B, R>(target: Table<K, R>, rows: seq<B>, clean: B -> Option<R>, key: R -> Option<K>, k: K)
    requires DistinctKeys(Gate(rows, clean), key)
    ensures k in MergeGated(target, rows, clean, key).keyed <==> k in target.keyed || Accepts(rows, clean, key, k)
  {
    MergeFromRows(target, Gate(rows, clean), key);
    KeysOfGate(rows, clean, key, k);
  }

  /** An accepted raw row with key k is what the table holds under k afterwards,
      whether k matched a row before (every column overwritten) or was inserted. */
  lemma MergeGatedAt<K, B, R>(target: Table<K, R>, rows: seq<B>, clean: B -> Option<R>, key: R -> Option<K>, i: int)
    requires DistinctKeys(Gate(rows, clean), key)
    requires 0 <= i < |rows| && clean(rows[i]).Some? && key(clean(rows[i]).value).Some?
    ensures key(clean(rows[i]).value).value in MergeGated(target, rows, clean, key).keyed
    ensures MergeGated(target, rows, clean, key).keyed[key(clean(rows[i]).value).value] == clean(rows[i]).value
  {
    KeyedRowsHas(Gate(rows, clean), key, clean(rows[i]).value);
  }

  /** A row whose key no accepted raw row carries is left as it was. */
  lemma MergeGatedUntouched<K, B, R>(target: Table<K, R>, rows: seq<B>, clean: B -> Option<R>, key: R -> Option<K>, k: K)
    requires DistinctKeys(Gate(rows, clean), key)
    requires k in target.keyed && !Accepts(rows, clean, key, k)
    ensures k in MergeGated(target, rows, clean, key).keyed
    ensures MergeGated(target, rows, clean, key).keyed[k] == target.keyed[k]
  {
    MergeFromRows(target, Gate(rows, clean), key);
    KeysOfGate(rows, clean, key, k);
  }

  /** The NULL-keyed rows are kept in front; behind them come exactly the accepted
      raw rows with a NULL key, in raw order, and none at all when every accepted
      row is keyed. */
  lemma MergeGatedUnkeyed<K, B, R>(target: Table<K, R>, rows: seq<B>, clean: B -> Option<R>, key: R -> Option<K>)
    requires DistinctKeys(Gate(rows, clean), key)
    ensures var u := MergeGated(target, rows, clean, key).unkeyed;
      && u == target.unkeyed + Gate(rows, AcceptedUnkeyed(clean, key))
      && |target.unkeyed| <= |u|
      && u[..|target.unkeyed|] == target.unkeyed
      && (forall j :: |target.unkeyed| <= j < |u| ==> key(u[j]) == None)
      && (|u| == |target.unkeyed| <==> AcceptsOnlyKeyed(rows, clean, key))
  {
    var src := Gate(rows, clean);
    MergeFromRows(target, src, key);
    UnkeyedRowsSpec(src, key);
    UnkeyedOfGate(rows, clean, key);
    var u := MergeGated(target, rows, clean, key).unkeyed;
    assert u == target.unkeyed + UnkeyedRows(src, key);
    forall j | |target.unkeyed| <= j < |u| ensures key(u[j]) == None {
      assert u[j] == UnkeyedRows(src, key)[j - |target.unkeyed|];
    }
    assert AcceptsOnlyKeyed(rows, clean, key) <==> AllKeyed(src, key) by {
      if AcceptsOnlyKeyed(rows, clean, key) {
        forall j | 0 <= j < |src| ensures key(src[j]).Some? {
          assert src[j] in src;
        }
      }
      if AllKeyed(src, key) {
        forall i | 0 <= i < |rows| && clean(rows[i]).Some? ensures key(clean(rows[i]).value).Some? {
          var r := clean(rows[i]).value;
          assert r in src;
          var j :| 0 <= j < |src| && src[j] == r;
        }
      }
    }
  }

  /** A row is among those the gated MERGE appends exactly when some accepted raw
      row with a NULL key converts to it. */
  lemma MergeGatedUnkeyedMembers<K, B, R>(target: Table<K, R>, rows: seq<B>, clean: B -> Option<R>, key: R -> Option<K>)
    requires DistinctKeys(Gate(rows, clean), key)
    ensures var u := MergeGated(target, rows, clean, key).unkeyed;
      && |target.unkeyed| <= |u|
      && u[..|target.unkeyed|] == target.unkeyed
      && forall r :: r in u[|target.unkeyed|..] <==>
           exists i :: 0 <= i < |rows| && clean(rows[i]) == Some(r) && key(r) == None
  {
    MergeGatedUnkeyed(target, rows, clean, key);
    var u := MergeGated(target, rows, clean, key).unkeyed;
    var passed := Gate(rows, AcceptedUnkeyed(clean, key));
    assert u[|target.unkeyed|..] == passed;
    forall r ensures r in passed <==> exists i :: 0 <= i < |rows| && clean(rows[i]) == Some(r) && key(r) == None {
      if exists i :: 0 <= i < |rows| && clean(rows[i]) == Some(r) && key(r) == None {
        var i :| 0 <= i < |rows| && clean(rows[i]) == Some(r) && key(r) == None;
        assert AcceptedUnkeyed(clean, key)(rows[i]) == Some(r);
      }
    }
  }

  /** The gated MERGE is idempotent exactly when no accepted raw row has a NULL key;
      otherwise each run inserts those rows once more. */
  lemma MergeGatedIdempotent<K, B, R>(target: Table<K, R>, rows: seq<B>, clean: B -> Option<R>, key: R -> Option<K>)
    requires DistinctKeys(Gate(rows, clean), key)
    ensures MergeGated(MergeGated(target, rows, clean, key), rows, clean, key) == MergeGated(target, rows, clean, key)
      <==> AcceptsOnlyKeyed(rows, clean, key)
  {
    var once := MergeGated(target, rows, clean, key);
    MergeGatedUnkeyed(target, rows, clean, key);
    MergeGatedUnkeyed(once, rows, clean, key);
    var s := FromRows(Gate(rows, clean), key);
    if AcceptsOnlyKeyed(rows, clean, key) {
      assert s.unkeyed == [];
      MergeIdempotent(target, s);
    } else {
      assert |MergeGated(once, rows, clean, key).unkeyed| != |once.unkeyed|;
    }
  }

  // ---------------------------------------------------------------------------
  // MERGE of a projection of a whole table (the gold layers)

  /** A projection that keeps the key keeps the table in agreement with it. */
  lemma ProjectWellKeyed<K, R, S>(t: Table<K, R>, f: R -> S, key: R -> Option<K>, key': S -> Option<K>)
    requires WellKeyed(t, key)
    requires forall r :: key'(f(r)) == key(r)
    ensures WellKeyed(Project(t, f), key')
  {
  }

  /** MERGE INTO gold USING (SELECT f(row) FROM silver): every silver key is in gold
      afterwards, holding the projection of its silver row, whatever gold held before;
      gold rows whose key silver lacks are unchanged; NULL-keyed silver rows are
      projected and appended. */
  lemma MergeProjection<K, R, S>(gold: Table<K, S>, silver: Table<K, R>, f: R -> S)
    ensures Merge(gold, Project(silver, f)).keyed.Keys == gold.keyed.Keys + silver.keyed.Keys
    ensures forall k :: k in silver.keyed ==> Merge(gold, Project(silver, f)).keyed[k] == f(silver.keyed[k])
    ensures forall k :: k in gold.keyed && k !in silver.keyed ==>
      Merge(gold, Project(silver, f)).keyed[k] == gold.keyed[k]
    ensures Merge(gold, Project(silver, f)).unkeyed == gold.unkeyed + MapRows(silver.unkeyed, f)
  {
  }
}
