/**
 * What the models' SELECT statements compute, over a table held as a map:
 * aggregates over the rows (COUNT, SUM) and results ordered by a key.
 */
module Query {

  /** The sum of `f` over a finite set of keys (SQL `SUM` over the selected rows). */
  ghost function SumOver(keys: set<nat>, f: nat -> int): int
    decreases keys
  {
    if keys == {} then 0
    else
      var k :| k in keys;
      f(k) + SumOver(keys - {k}, f)
  }

  /** The sum does not depend on the order the rows are visited in: any row can be taken out first. */
  lemma {:induction false} SumOverRemove(keys: set<nat>, f: nat -> int, k: nat)
    requires k in keys
    ensures SumOver(keys, f) == f(k) + SumOver(keys - {k}, f)
    decreases keys
  {
    var j :| j in keys && SumOver(keys, f) == f(j) + SumOver(keys - {j}, f);
    if j != k {
      SumOverRemove(keys - {j}, f, k);
      SumOverRemove(keys - {k}, f, j);
      assert keys - {j} - {k} == keys - {k} - {j};
    }
  }

  lemma SumOverAdd(keys: set<nat>, f: nat -> int, k: nat)
    requires k !in keys
    ensures SumOver(keys + {k}, f) == SumOver(keys, f) + f(k)
  {
    SumOverRemove(keys + {k}, f, k);
    assert keys + {k} - {k} == keys;
  }

  /** Sums of non-negative terms are non-negative and bounded by the sum over a larger set. */
  lemma {:induction false} SumOverMonotone(small: set<nat>, large: set<nat>, f: nat -> int)
    requires small <= large
    requires forall k :: k in large ==> 0 <= f(k)
    ensures 0 <= SumOver(small, f) <= SumOver(large, f)
    decreases large
  {
    if large != {} {
      var k :| k in large;
      SumOverRemove(large, f, k);
      if k in small {
        SumOverRemove(small, f, k);
        SumOverMonotone(small - {k}, large - {k}, f);
      } else {
        SumOverMonotone(small, large - {k}, f);
      }
    }
  }

  /** Sums of pointwise-equal terms are equal. */
  lemma {:induction false} SumOverCongruent(keys: set<nat>, f: nat -> int, g: nat -> int)
    requires forall k :: k in keys ==> f(k) == g(k)
    ensures SumOver(keys, f) == SumOver(keys, g)
    decreases keys
  {
    if keys != {} {
      var k :| k in keys;
      SumOverRemove(keys, f, k);
      SumOverRemove(keys, g, k);
      SumOverCongruent(keys - {k}, f, g);
    }
  }

  /** Summing two columns separately and adding equals summing their pointwise sum. */
  lemma {:induction false} SumOverPlus(keys: set<nat>, f: nat -> int, g: nat -> int, h: nat -> int)
    requires forall k :: k in keys ==> h(k) == f(k) + g(k)
    ensures SumOver(keys, h) == SumOver(keys, f) + SumOver(keys, g)
    decreases keys
  {
    if keys != {} {
      var k :| k in keys;
      SumOverRemove(keys, f, k);
      SumOverRemove(keys, g, k);
      SumOverRemove(keys, h, k);
      SumOverPlus(keys - {k}, f, g, h);
    }
  }

  /** A column bounded row by row by another has a sum bounded by the other's sum. */
  lemma {:induction false} SumOverLe(keys: set<nat>, f: nat -> int, g: nat -> int)
    requires forall k :: k in keys ==> f(k) <= g(k)
    ensures SumOver(keys, f) <= SumOver(keys, g)
    decreases keys
  {
    if keys != {} {
      var k :| k in keys;
      SumOverRemove(keys, f, k);
      SumOverRemove(keys, g, k);
      SumOverLe(keys - {k}, f, g);
    }
  }

  /** Counting every row gives the number of rows. */
  lemma {:induction false} SumOverOnes(keys: set<nat>, f: nat -> int)
    requires forall k :: k in keys ==> f(k) == 1
    ensures SumOver(keys, f) == |keys|
    decreases keys
  {
    if keys != {} {
      var k :| k in keys;
      SumOverRemove(keys, f, k);
      SumOverOnes(keys - {k}, f);
    }
  }

  /** `SUM(column)` evaluated row by row over the selected keys. */
  method SumKeys(keys: set<nat>, f: nat -> int) returns (total: int)
    ensures total == SumOver(keys, f)
  {
    var todo := keys;
    ghost var done: set<nat> := {};
    total := 0;
    while todo != {}
      invariant todo + done == keys && todo !! done
      invariant total == SumOver(done, f)
      decreases todo
    {
      var k :| k in todo;
      SumOverAdd(done, f, k);
      total := total + f(k);
      todo := todo - {k};
      done := done + {k};
    }
  }

  /** `le` orders values totally (ties allowed): the comparison behind `ORDER BY`. */
  ghost predicate TotalPreorder<T(!new)>(le: (T, T) -> bool) {
    (forall a, b :: le(a, b) || le(b, a))
    && (forall a, b, c :: le(a, b) && le(b, c) ==> le(a, c))
  }

  /** `ORDER BY` on a text column, compared character by character (a prefix comes first). */
  predicate LexLe(a: string, b: string) {
    |a| == 0 || (|b| > 0 && (a[0] < b[0] || (a[0] == b[0] && LexLe(a[1..], b[1..]))))
  }

  lemma {:induction false} LexLeTotal(a: string, b: string)
    ensures LexLe(a, b) || LexLe(b, a)
    decreases |a|
  {
    if |a| > 0 && |b| > 0 && a[0] == b[0] {
      LexLeTotal(a[1..], b[1..]);
    }
  }

  lemma {:induction false} LexLeTransitive(a: string, b: string, c: string)
    requires LexLe(a, b) && LexLe(b, c)
    ensures LexLe(a, c)
    decreases |a|
  {
    if |a| > 0 && a[0] == b[0] && b[0] == c[0] {
      LexLeTransitive(a[1..], b[1..], c[1..]);
    }
  }

  /** Ordering by a text key is a total preorder. */
  lemma LexKeyOrder<T(!new)>(key: T -> string, le: (T, T) -> bool)
    requires forall x, y :: le(x, y) == LexLe(key(x), key(y))
    ensures TotalPreorder(le)
  {
    forall x, y ensures le(x, y) || le(y, x) {
      LexLeTotal(key(x), key(y));
    }
    forall x, y, z | le(x, y) && le(y, z) ensures le(x, z) {
      LexLeTransitive(key(x), key(y), key(z));
    }
  }

  predicate SortedBy<T>(s: seq<T>, le: (T, T) -> bool) {
    forall i, j :: 0 <= i < j < |s| ==> le(s[i], s[j])
  }

  /** Inserting into a result adds exactly the one value. */
  function InsertBy<T>(x: T, s: seq<T>, le: (T, T) -> bool): (r: seq<T>)
    ensures multiset(r) == multiset(s) + multiset{x}
  {
    if s == [] then [x]
    else if le(x, s[0]) then [x] + s
    else
      assert s == [s[0]] + s[1..];
      [s[0]] + InsertBy(x, s[1..], le)
  }

  /** The inserted result holds the old values and the new one, and nothing else. */
  lemma InsertByMembers<T>(x: T, s: seq<T>, le: (T, T) -> bool)
    ensures |InsertBy(x, s, le)| == |s| + 1
    ensures forall e :: e in InsertBy(x, s, le) <==> e == x || e in s
  {
    var r := InsertBy(x, s, le);
    assert |r| == |multiset(r)|;
    forall e ensures e in r <==> e == x || e in s {
      assert e in r <==> e in multiset(r);
      assert e in s <==> e in multiset(s);
    }
  }

  /** Inserting into an ordered result keeps it ordered. */
  lemma {:induction false} InsertBySorted<T(!new)>(x: T, s: seq<T>, le: (T, T) -> bool)
    requires TotalPreorder(le)
    requires SortedBy(s, le)
    ensures SortedBy(InsertBy(x, s, le), le)
  {
    if s != [] {
      if le(x, s[0]) {
        forall j | 0 < j < |s| ensures le(x, s[j]) {
          assert le(s[0], s[j]);
        }
      } else {
        var tail := InsertBy(x, s[1..], le);
        InsertBySorted(x, s[1..], le);
        assert le(s[0], x);
        forall j | 0 <= j < |tail| ensures le(s[0], tail[j]) {
          assert tail[j] in multiset(tail);
          if tail[j] != x {
            assert tail[j] in multiset(s[1..]);
            var m :| 0 <= m < |s[1..]| && s[1..][m] == tail[j];
            assert s[m + 1] == tail[j];
          }
        }
        var r := [s[0]] + tail;
        forall i, j | 0 <= i < j < |r| ensures le(r[i], r[j]) {
          if i > 0 { assert r[i] == tail[i - 1] && r[j] == tail[j - 1]; }
          else { assert r[j] == tail[j - 1]; }
        }
      }
    }
  }

  /** The keys of the rows a WHERE clause selects. */
  function SelectedKeys<R>(table: map<nat, R>, selected: R -> bool): set<nat> {
    set k | k in table && selected(table[k])
  }

  /** `r` lists, ordered by `le`, the selected rows among the keys visited so far, each once. */
  ghost predicate Listing<R, T>(table: map<nat, R>, selected: R -> bool, entry: (nat, R) -> T, idOf: T -> nat,
                                le: (T, T) -> bool, done: set<nat>, r: seq<T>) {
    SortedBy(r, le)
    && (set e | e in r :: idOf(e)) == SelectedKeys(table, selected) * done
    && |r| == |SelectedKeys(table, selected) * done|
    && forall e :: e in r ==> idOf(e) in table && e == entry(idOf(e), table[idOf(e)])
  }

  lemma ListingStep<R, T(!new)>(table: map<nat, R>, selected: R -> bool, entry: (nat, R) -> T, idOf: T -> nat,
                                le: (T, T) -> bool, done: set<nat>, r: seq<T>, k: nat)
    requires TotalPreorder(le)
    requires forall j: nat, row: R :: idOf(entry(j, row)) == j
    requires Listing(table, selected, entry, idOf, le, done, r)
    requires k in table && k !in done
    ensures Listing(table, selected, entry, idOf, le, done + {k},
                    if selected(table[k]) then InsertBy(entry(k, table[k]), r, le) else r)
  {
    var ids := SelectedKeys(table, selected);
    if selected(table[k]) {
      var x := entry(k, table[k]);
      var next := InsertBy(x, r, le);
      InsertBySorted(x, r, le);
      InsertByMembers(x, r, le);
      var before, after := set e | e in r :: idOf(e), set e | e in next :: idOf(e);
      assert after == before + {k} by {
        forall i | i in after ensures i in before + {k} {
          var e :| e in next && idOf(e) == i;
        }
        forall i | i in before + {k} ensures i in after {
          if i == k {
            assert x in next;
          } else {
            var e :| e in r && idOf(e) == i;
            assert e in next;
          }
        }
      }
      assert ids * (done + {k}) == ids * done + {k};
      assert k !in ids * done;
      forall e | e in next ensures idOf(e) in table && e == entry(idOf(e), table[idOf(e)]) {
        if e != x {
          assert e in r;
        }
      }
    } else {
      assert ids * (done + {k}) == ids * done;
    }
  }

  /**
   * `SELECT ... WHERE selected ORDER BY le`: every selected row exactly once,
   * as `entry` reports it, in order.
   */
  method SelectOrdered<R, T(!new)>(table: map<nat, R>, selected: R -> bool, entry: (nat, R) -> T, idOf: T -> nat,
                                   le: (T, T) -> bool) returns (r: seq<T>)
    requires TotalPreorder(le)
    requires forall j: nat, row: R :: idOf(entry(j, row)) == j
    ensures SortedBy(r, le)
    ensures (set e | e in r :: idOf(e)) == SelectedKeys(table, selected)
    ensures |r| == |SelectedKeys(table, selected)|
    ensures forall e :: e in r ==> idOf(e) in table && e == entry(idOf(e), table[idOf(e)])
  {
    var todo := table.Keys;
    ghost var done: set<nat> := {};
    r := [];
    ListingStart(table, selected, entry, idOf, le);
    while todo != {}
      invariant todo + done == table.Keys && todo !! done
      invariant Listing(table, selected, entry, idOf, le, done, r)
      invariant forall j: nat, row: R :: idOf(entry(j, row)) == j
      decreases todo
    {
      var k :| k in todo;
      MoveKey(todo, done, table.Keys, k);
      ListingStep(table, selected, entry, idOf, le, done, r, k);
      if selected(table[k]) {
        r := InsertBy(entry(k, table[k]), r, le);
      }
      todo := todo - {k};
      done := done + {k};
    }
    assert done == table.Keys;
    ListingComplete(table, selected, entry, idOf, le, r);
  }

  /** Moving one key from the keys to visit to the visited ones keeps the two a partition. */
  lemma MoveKey(todo: set<nat>, done: set<nat>, all: set<nat>, k: nat)
    requires todo + done == all && todo !! done && k in todo
    ensures (todo - {k}) + (done + {k}) == all && (todo - {k}) !! (done + {k})
    ensures k in all && k !in done
  {
  }

  /** Before any key is visited, the empty listing is the right one. */
  lemma ListingStart<R, T>(table: map<nat, R>, selected: R -> bool, entry: (nat, R) -> T, idOf: T -> nat,
                           le: (T, T) -> bool)
    ensures Listing(table, selected, entry, idOf, le, {}, [])
  {
    assert SelectedKeys(table, selected) * {} == {};
  }

  /** Once every key has been visited, the listing holds exactly the selected rows. */
  lemma ListingComplete<R, T>(table: map<nat, R>, selected: R -> bool, entry: (nat, R) -> T, idOf: T -> nat,
                              le: (T, T) -> bool, r: seq<T>)
    requires Listing(table, selected, entry, idOf, le, table.Keys, r)
    ensures SortedBy(r, le)
    ensures (set e | e in r :: idOf(e)) == SelectedKeys(table, selected)
    ensures |r| == |SelectedKeys(table, selected)|
    ensures forall e :: e in r ==> idOf(e) in table && e == entry(idOf(e), table[idOf(e)])
  {
    assert SelectedKeys(table, selected) * table.Keys == SelectedKeys(table, selected);
  }

  /** `ORDER BY id LIMIT 1`: the least key of a non-empty set of keys. */
  function FirstKey(keys: set<nat>): (m: nat)
    requires keys != {}
    ensures m in keys && forall k :: k in keys ==> m <= k
  {
    var least := Least(keys);
    var m :| m in keys && forall k :: k in keys ==> m <= k;
    m
  }

  /** A least element, found by removing an arbitrary key and comparing it with the least of the rest. */
  ghost function Least(keys: set<nat>): (m: nat)
    requires keys != {}
    ensures m in keys && forall k :: k in keys ==> m <= k
    decreases |keys|
  {
    var x :| x in keys;
    if keys == {x} then x
    else
      var rest := keys - {x};
      assert rest != {} by {
        var y :| y in keys && y != x;
        assert y in rest;
      }
      var m := Least(rest);
      assert forall k :: k in keys ==> k == x || k in rest;
      if x < m then x else m
  }
}
