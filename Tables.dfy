/**
 * Queries over a table held as a map from ids to rows.
 *
 * A repository query scans the table and returns the matching rows as a list.
 * SQL leaves the order of rows unspecified without ORDER BY; this model fixes
 * it as ascending id, which is the order of SelectIds.
 */
module Tables {

  /** Strictly ascending, hence without repetitions. */
  predicate Increasing(ks: seq<nat>) {
    forall i, j :: 0 <= i < j < |ks| ==> ks[i] < ks[j]
  }

  /** The ids below `bound` whose rows satisfy `keep`, in ascending order. */
  function SelectIds<T>(m: map<nat, T>, bound: nat, keep: T -> bool): (ks: seq<nat>)
    ensures Increasing(ks)
    ensures forall k :: k in ks <==> k < bound && k in m && keep(m[k])
    decreases bound
  {
    if bound == 0 then []
    else
      var earlier := SelectIds(m, bound - 1, keep);
      if bound - 1 in m && keep(m[bound - 1]) then
        assert forall i :: 0 <= i < |earlier| ==> earlier[i] in earlier;
        earlier + [bound - 1]
      else earlier
  }

  /** The rows stored under the given ids, in the same order. */
  function Rows<T>(m: map<nat, T>, ks: seq<nat>): seq<T>
    requires forall k :: k in ks ==> k in m
  {
    seq(|ks|, i requires 0 <= i < |ks| => m[ks[i]])
  }

  /** The elements of `s` that satisfy `keep`, in their order in `s` (a stream filter). */
  function Filter<T(!new)>(s: seq<T>, keep: T -> bool): (r: seq<T>)
    ensures |r| <= |s|
    ensures forall x :: x in r <==> x in s && keep(x)
  {
    if s == [] then []
    else (if keep(s[0]) then [s[0]] else []) + Filter(s[1..], keep)
  }

  lemma {:induction false} FilterAppend<T(!new)>(a: seq<T>, b: seq<T>, keep: T -> bool)
    ensures Filter(a + b, keep) == Filter(a, keep) + Filter(b, keep)
  {
    if a != [] {
      assert (a + b)[0] == a[0];
      assert (a + b)[1..] == a[1..] + b;
      FilterAppend(a[1..], b, keep);
      var head := if keep(a[0]) then [a[0]] else [];
      calc {
        Filter(a + b, keep);
        head + Filter(a[1..] + b, keep);
        head + (Filter(a[1..], keep) + Filter(b, keep));
        (head + Filter(a[1..], keep)) + Filter(b, keep);
        Filter(a, keep) + Filter(b, keep);
      }
    } else {
      assert a + b == b;
    }
  }

  /** Names the first element of a non-empty sequence, so that "nothing is in it" yields emptiness. */
  lemma NonEmptyHasFirst<T>(s: seq<T>)
    ensures s != [] ==> s[0] in s
  {
  }

  lemma RowsAppendOne<T>(m: map<nat, T>, ks: seq<nat>, k: nat)
    requires forall j :: j in ks ==> j in m
    requires k in m
    ensures Rows(m, ks + [k]) == Rows(m, ks) + [m[k]]
  {
  }

  /**
   * Filtering the result of a scan by `g` gives the scan for `f` and `g`
   * together: the filtered list keeps exactly the rows satisfying both, in
   * the scan's order.
   */
  lemma {:induction false} FilterOfSelection<T(!new)>(m: map<nat, T>, bound: nat, f: T -> bool, g: T -> bool, both: T -> bool)
    requires forall x :: both(x) == (f(x) && g(x))
    ensures Filter(Rows(m, SelectIds(m, bound, f)), g) == Rows(m, SelectIds(m, bound, both))
    decreases bound
  {
    if bound > 0 {
      var k := bound - 1;
      var earlierF := SelectIds(m, k, f);
      var earlierBoth := SelectIds(m, k, both);
      FilterOfSelection(m, k, f, g, both);
      if k in m && f(m[k]) {
        RowsAppendOne(m, earlierF, k);
        FilterAppend(Rows(m, earlierF), [m[k]], g);
        assert Filter([m[k]], g) == if g(m[k]) then [m[k]] else [];
        if both(m[k]) {
          RowsAppendOne(m, earlierBoth, k);
        }
      }
    }
  }

  /**
   * The rows a scan returns are exactly the stored rows that satisfy `keep`,
   * ordered by their ids, when every row carries the id it is stored under.
   */
  lemma RowsOfSelection<T(!new)>(m: map<nat, T>, bound: nat, keep: T -> bool, idOf: T -> nat)
    requires forall k :: k in m ==> idOf(m[k]) == k && k < bound
    ensures var r := Rows(m, SelectIds(m, bound, keep));
            && (forall x :: x in r <==> x in m.Values && keep(x))
            && (forall i, j :: 0 <= i < j < |r| ==> idOf(r[i]) < idOf(r[j]))
  {
    var ks := SelectIds(m, bound, keep);
    var r := Rows(m, ks);
    forall x | x in m.Values && keep(x)
      ensures x in r
    {
      var k :| k in m && m[k] == x;
      assert k in ks;
      var i :| 0 <= i < |ks| && ks[i] == k;
      assert r[i] == x;
    }
    forall x | x in r
      ensures x in m.Values && keep(x)
    {
      var i :| 0 <= i < |r| && r[i] == x;
      assert ks[i] in ks;
    }
    forall i, j | 0 <= i < j < |r|
      ensures idOf(r[i]) < idOf(r[j])
    {
      assert ks[i] in ks && ks[j] in ks;
    }
  }
}
