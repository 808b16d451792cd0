/**
 * The ordering pandas' `sort_values` uses on several columns, a stable sort by
 * that ordering, and the "first row of each group" marker behind
 * `groupby().cumcount() == 0` and `duplicated(keep='first')`.
 *
 * A sort key is one `Field` per sort column. Text compares by code points as
 * Python strings do, numbers by value, and a missing value (NaN) sorts after
 * everything (`na_position='last'`). Keys compare column by column.
 */
module Ordering {
  import opened Basics

  /** Python's string order: lexicographic by code point, a proper prefix first. */
  predicate StrLt(a: string, b: string) {
    if a == [] then b != []
    else b != [] && (a[0] < b[0] || (a[0] == b[0] && StrLt(a[1..], b[1..])))
  }

  lemma {:induction false} StrLtIrreflexive(a: string)
    ensures !StrLt(a, a)
  {
    if a != [] {
      StrLtIrreflexive(a[1..]);
    }
  }

  lemma {:induction false} StrLtTransitive(a: string, b: string, c: string)
    requires StrLt(a, b) && StrLt(b, c)
    ensures StrLt(a, c)
  {
    if a != [] && a[0] == b[0] && b[0] == c[0] {
      StrLtTransitive(a[1..], b[1..], c[1..]);
    }
  }

  lemma {:induction false} StrLtTrichotomy(a: string, b: string)
    ensures a == b || StrLt(a, b) || StrLt(b, a)
  {
    if a != [] && b != [] && a[0] == b[0] {
      StrLtTrichotomy(a[1..], b[1..]);
      if a[1..] == b[1..] {
        assert a == [a[0]] + a[1..] && b == [b[0]] + b[1..];
      }
    }
  }

  /** One column of a sort key. */
  datatype Field = Text(s: string) | Number(n: int) | Missing

  /** A cell as a sort column: NaN is `Missing`. */
  function CellField(c: Option<string>): Field {
    match c
    case None => Missing
    case Some(s) => Text(s)
  }

  /** The strict order on one column; `Missing` comes last. */
  predicate FieldLt(a: Field, b: Field) {
    match (a, b)
    case (Missing, _) => false
    case (_, Missing) => true
    case (Number(x), Number(y)) => x < y
    case (Number(_), Text(_)) => true
    case (Text(_), Number(_)) => false
    case (Text(x), Text(y)) => StrLt(x, y)
  }

  lemma FieldLtIrreflexive(a: Field)
    ensures !FieldLt(a, a)
  {
    if a.Text? {
      StrLtIrreflexive(a.s);
    }
  }

  lemma FieldLtTransitive(a: Field, b: Field, c: Field)
    requires FieldLt(a, b) && FieldLt(b, c)
    ensures FieldLt(a, c)
  {
    if a.Text? && b.Text? && c.Text? {
      StrLtTransitive(a.s, b.s, c.s);
    }
  }

  lemma FieldLtTrichotomy(a: Field, b: Field)
    ensures a == b || FieldLt(a, b) || FieldLt(b, a)
  {
    if a.Text? && b.Text? {
      StrLtTrichotomy(a.s, b.s);
    }
  }

  type SortKey = seq<Field>

  /** Column-by-column comparison of two sort keys (the order of a multi-column sort). */
  predicate KeyLe(a: SortKey, b: SortKey) {
    a == [] || (b != [] && (FieldLt(a[0], b[0]) || (a[0] == b[0] && KeyLe(a[1..], b[1..]))))
  }

  lemma {:induction false} KeyLeTotal(a: SortKey, b: SortKey)
    ensures KeyLe(a, b) || KeyLe(b, a)
  {
    if a != [] && b != [] {
      FieldLtTrichotomy(a[0], b[0]);
      KeyLeTotal(a[1..], b[1..]);
    }
  }

  lemma {:induction false} KeyLeTransitive(a: SortKey, b: SortKey, c: SortKey)
    requires KeyLe(a, b) && KeyLe(b, c)
    ensures KeyLe(a, c)
  {
    if a != [] {
      if FieldLt(a[0], b[0]) && FieldLt(b[0], c[0]) {
        FieldLtTransitive(a[0], b[0], c[0]);
      } else if a[0] == b[0] && b[0] == c[0] {
        KeyLeTransitive(a[1..], b[1..], c[1..]);
      }
    }
  }

  /**
   * Two keys that agree on every column before a final numeric one are
   * ordered by that number: within a group, a sort on (group, code) puts
   * lower codes first.
   */
  lemma {:induction false} KeyLeOnLastNumber(g: SortKey, x: int, y: int)
    requires KeyLe(g + [Number(x)], g + [Number(y)])
    ensures x <= y
  {
    if g == [] {
      assert [Number(x)][1..] == [];
    } else {
      FieldLtIrreflexive(g[0]);
      assert (g + [Number(x)])[1..] == g[1..] + [Number(x)];
      assert (g + [Number(y)])[1..] == g[1..] + [Number(y)];
      KeyLeOnLastNumber(g[1..], x, y);
    }
  }

  /** `s` is in ascending order of `key`. */
  ghost predicate Ascending<T>(s: seq<T>, key: T -> SortKey) {
    forall i, j :: 0 <= i < j < |s| ==> KeyLe(key(s[i]), key(s[j]))
  }

  /** Inserts `x` before the first element whose key is not smaller than its own. */
  function Insert<T>(x: T, s: seq<T>, key: T -> SortKey): (r: seq<T>)
    ensures multiset(r) == multiset(s) + multiset{x}
  {
    if s == [] then [x]
    else if KeyLe(key(x), key(s[0])) then [x] + s
    else
      assert s == [s[0]] + s[1..];
      [s[0]] + Insert(x, s[1..], key)
  }

  /**
   * A stable sort by `key`: each element is inserted in front of the later
   * elements with equal keys, so equal keys keep their input order.
   */
  function SortBy<T>(s: seq<T>, key: T -> SortKey): (r: seq<T>)
    ensures multiset(r) == multiset(s)
  {
    if s == [] then []
    else
      assert s == [s[0]] + s[1..];
      Insert(s[0], SortBy(s[1..], key), key)
  }

  /** An element whose key is at most the first key of an ascending sequence can go in front of it. */
  lemma PrependAscending<T>(y: T, t: seq<T>, key: T -> SortKey)
    requires Ascending(t, key) && (t == [] || KeyLe(key(y), key(t[0])))
    ensures Ascending([y] + t, key)
  {
    var r := [y] + t;
    forall i, j | 0 <= i < j < |r| ensures KeyLe(key(r[i]), key(r[j])) {
      if i == 0 && j > 1 {
        KeyLeTransitive(key(y), key(t[0]), key(t[j - 1]));
      }
    }
  }

  /** `Insert` puts either the new element or the old first element in front. */
  lemma InsertHead<T>(x: T, s: seq<T>, key: T -> SortKey)
    ensures Insert(x, s, key)[0] == x || (s != [] && Insert(x, s, key)[0] == s[0])
  {
  }

  lemma {:induction false} InsertAscending<T>(x: T, s: seq<T>, key: T -> SortKey)
    requires Ascending(s, key)
    ensures Ascending(Insert(x, s, key), key)
  {
    if s != [] {
      if KeyLe(key(x), key(s[0])) {
        PrependAscending(x, s, key);
      } else {
        KeyLeTotal(key(x), key(s[0]));
        var t := Insert(x, s[1..], key);
        InsertAscending(x, s[1..], key);
        InsertHead(x, s[1..], key);
        PrependAscending(s[0], t, key);
      }
    }
  }

  /** `SortBy` sorts. */
  lemma {:induction false} SortByAscending<T>(s: seq<T>, key: T -> SortKey)
    ensures Ascending(SortBy(s, key), key)
  {
    if s != [] {
      SortByAscending(s[1..], key);
      InsertAscending(s[0], SortBy(s[1..], key), key);
    }
  }

  /** Sorting what is already sorted changes nothing: the sort is idempotent. */
  lemma {:induction false} SortByAscendingIsIdentity<T>(s: seq<T>, key: T -> SortKey)
    requires Ascending(s, key)
    ensures SortBy(s, key) == s
  {
    if s != [] {
      SortByAscendingIsIdentity(s[1..], key);
      if |s| > 1 {
        assert KeyLe(key(s[0]), key(s[1]));
      }
      assert [s[0]] + s[1..] == s;
    }
  }

  /**
   * For each position, whether its key occurs there for the first time:
   * `groupby(key).cumcount() == 0`, or `not duplicated(key, keep='first')`.
   */
  function FirstOccurrences<K(==)>(keys: seq<K>): seq<bool> {
    seq(|keys|, i requires 0 <= i < |keys| => keys[i] !in keys[..i])
  }

  /** The position of the first occurrence of `k` in `keys`. */
  function IndexOf<K(==)>(keys: seq<K>, k: K): (j: nat)
    requires k in keys
    ensures j < |keys| && keys[j] == k && k !in keys[..j]
  {
    if keys[0] == k then 0
    else
      var j := IndexOf(keys[1..], k);
      assert keys[..j + 1] == [keys[0]] + keys[1..][..j];
      1 + j
  }

  /** The image of `s` under `f`, element by element. */
  function Project<T, U>(s: seq<T>, f: T -> U): (r: seq<U>)
    ensures |r| == |s| && forall i :: 0 <= i < |s| ==> r[i] == f(s[i])
  {
    seq(|s|, i requires 0 <= i < |s| => f(s[i]))
  }

  lemma ProjectAppend<T, U>(a: seq<T>, b: seq<T>, f: T -> U)
    ensures Project(a + b, f) == Project(a, f) + Project(b, f)
  {
  }

  /** Inserting keeps the multiset of any projection. */
  lemma {:induction false} InsertProject<T, U>(x: T, s: seq<T>, key: T -> SortKey, f: T -> U)
    ensures multiset(Project(Insert(x, s, key), f)) == multiset(Project(s, f)) + multiset{f(x)}
  {
    if s == [] {
    } else if KeyLe(key(x), key(s[0])) {
      ProjectAppend([x], s, f);
    } else {
      InsertProject(x, s[1..], key, f);
      ProjectAppend([s[0]], Insert(x, s[1..], key), f);
      ProjectAppend([s[0]], s[1..], f);
      assert s == [s[0]] + s[1..];
    }
  }

  /** Sorting keeps the multiset of any projection: a sorted table has the same columns' values. */
  lemma {:induction false} SortByProject<T, U>(s: seq<T>, key: T -> SortKey, f: T -> U)
    ensures multiset(Project(SortBy(s, key), f)) == multiset(Project(s, f))
  {
    if s != [] {
      var t := SortBy(s[1..], key);
      assert SortBy(s, key) == Insert(s[0], t, key);
      SortByProject(s[1..], key, f);
      InsertProject(s[0], t, key, f);
      assert Project(s, f) == [f(s[0])] + Project(s[1..], f);
    }
  }

  /** `pd.unique`: the distinct values of `s` in order of first appearance. */
  function Unique<K(==,!new)>(s: seq<K>): (r: seq<K>)
    ensures forall i, j :: 0 <= i < j < |r| ==> r[i] != r[j]
    ensures forall x :: x in r <==> x in s
  {
    if s == [] then []
    else
      var n := |s| - 1;
      var u := Unique(s[..n]);
      assert s == s[..n] + [s[n]];
      if s[n] in u then u else u + [s[n]]
  }

  /** A value occurs at least twice exactly when some other position holds it too. */
  lemma CountAtLeastTwo<K>(s: seq<K>, i: nat)
    requires i < |s|
    ensures multiset(s)[s[i]] >= 2 <==> exists j :: 0 <= j < |s| && j != i && s[j] == s[i]
  {
    assert s == s[..i] + [s[i]] + s[i + 1..];
    assert multiset(s) == multiset(s[..i]) + multiset{s[i]} + multiset(s[i + 1..]);
    if multiset(s)[s[i]] >= 2 {
      if s[i] in s[..i] {
        var j :| 0 <= j < i && s[..i][j] == s[i];
        assert s[j] == s[i];
      } else {
        assert s[i] in multiset(s[i + 1..]);
        var j :| 0 <= j < |s| - i - 1 && s[i + 1..][j] == s[i];
        assert s[i + 1 + j] == s[i];
      }
    }
    if exists j :: 0 <= j < |s| && j != i && s[j] == s[i] {
      var j :| 0 <= j < |s| && j != i && s[j] == s[i];
      if j < i {
        assert s[..i][j] == s[i];
      } else {
        assert s[i + 1..][j - i - 1] == s[i];
      }
    }
  }
}
