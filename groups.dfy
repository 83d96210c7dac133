/**
 * Row groups keyed by a string column, as pandas' `groupby(key)[col]`
 * transforms and the `df[df[key] == k]` masks of the ETL scripts see them:
 * the rows of one key in row order, each row's rank inside its group, and
 * a per-group transform scattered back to the rows it came from.
 */
module Groups {
  import opened Wrappers
  import opened Series
  import opened Frames

  /** Number of rows carrying key d. */
  function Count(keys: seq<string>, d: string): nat
  {
    if keys == [] then 0
    else Count(keys[..|keys| - 1], d) + (if keys[|keys| - 1] == d then 1 else 0)
  }

  /** The values of the rows carrying key d, in row order: `vals[keys == d]`. */
  function Select<T>(keys: seq<string>, vals: seq<T>, d: string): (r: seq<T>)
    requires |keys| == |vals|
    ensures |r| == Count(keys, d)
  {
    if keys == [] then []
    else
      var n := |keys| - 1;
      Select(keys[..n], vals[..n], d) + (if keys[n] == d then [vals[n]] else [])
  }

  /** Position of row i inside its own group. */
  function Rank(keys: seq<string>, i: nat): nat
    requires i < |keys|
  {
    Count(keys[..i], keys[i])
  }

  /** Counting a prefix one row longer. */
  lemma CountStep(keys: seq<string>, m: nat, d: string)
    requires m < |keys|
    ensures Count(keys[..m + 1], d) == Count(keys[..m], d) + (if keys[m] == d then 1 else 0)
  {
    assert keys[..m + 1][..m] == keys[..m];
  }

  lemma SelectStep<T>(keys: seq<string>, vals: seq<T>, m: nat, d: string)
    requires |keys| == |vals| && m < |keys|
    ensures Select(keys[..m + 1], vals[..m + 1], d) ==
            Select(keys[..m], vals[..m], d) + (if keys[m] == d then [vals[m]] else [])
  {
    assert keys[..m + 1][..m] == keys[..m];
    assert vals[..m + 1][..m] == vals[..m];
  }

  /** Counts only grow along prefixes. */
  lemma {:induction false} CountMonotone(keys: seq<string>, m: nat, n: nat, d: string)
    requires m <= n <= |keys|
    ensures Count(keys[..m], d) <= Count(keys[..n], d)
    decreases n - m
  {
    if m < n {
      CountMonotone(keys, m, n - 1, d);
      CountStep(keys, n - 1, d);
    }
  }

  /** Row i's rank is a valid position in its group. */
  lemma RankInRange(keys: seq<string>, i: nat)
    requires i < |keys|
    ensures Rank(keys, i) < Count(keys, keys[i])
  {
    CountStep(keys, i, keys[i]);
    CountMonotone(keys, i + 1, |keys|, keys[i]);
    assert keys[..|keys|] == keys;
  }

  /** The prefix of a group up to row m is the first Count(keys[..m], d) values of the group. */
  lemma {:induction false} SelectPrefix<T>(keys: seq<string>, vals: seq<T>, m: nat, d: string)
    requires |keys| == |vals| && m <= |keys|
    ensures Count(keys[..m], d) <= Count(keys, d)
    ensures Select(keys[..m], vals[..m], d) == Select(keys, vals, d)[..Count(keys[..m], d)]
    decreases |keys| - m
  {
    if m == |keys| {
      assert keys[..m] == keys && vals[..m] == vals;
    } else {
      SelectPrefix(keys, vals, m + 1, d);
      SelectStep(keys, vals, m, d);
      CountStep(keys, m, d);
    }
  }

  /** Gathering a group and reading it at row i's rank gives row i back. */
  lemma SelectAtRank<T>(keys: seq<string>, vals: seq<T>, i: nat)
    requires |keys| == |vals| && i < |keys|
    ensures Rank(keys, i) < |Select(keys, vals, keys[i])|
    ensures Select(keys, vals, keys[i])[Rank(keys, i)] == vals[i]
  {
    RankInRange(keys, i);
    SelectPrefix(keys, vals, i + 1, keys[i]);
    SelectStep(keys, vals, i, keys[i]);
    CountStep(keys, i, keys[i]);
  }

  /** Every value of a group comes from a row with the group's key. */
  lemma {:induction false} SelectFromGroup<T>(keys: seq<string>, vals: seq<T>, d: string, r: nat)
    requires |keys| == |vals| && r < |Select(keys, vals, d)|
    ensures exists j :: 0 <= j < |keys| && keys[j] == d && vals[j] == Select(keys, vals, d)[r]
  {
    var n := |keys| - 1;
    var front := Select(keys[..n], vals[..n], d);
    if r < |front| {
      SelectFromGroup(keys[..n], vals[..n], d, r);
      var j :| 0 <= j < n && keys[..n][j] == d && vals[..n][j] == front[r];
      assert keys[j] == d && vals[j] == Select(keys, vals, d)[r];
    } else {
      assert keys[n] == d && vals[n] == Select(keys, vals, d)[r];
    }
  }

  /** The keys of every selected row are the key selected on. */
  lemma SelectKeys(keys: seq<string>, d: string)
    ensures forall k :: 0 <= k < |Select(keys, keys, d)| ==> Select(keys, keys, d)[k] == d
  {
    forall k | 0 <= k < |Select(keys, keys, d)| ensures Select(keys, keys, d)[k] == d {
      SelectFromGroup(keys, keys, d, k);
    }
  }

  /** A transform that keeps the length of the column it is given. */
  ghost predicate SameLength(f: Column -> Column)
  {
    forall c :: |f(c)| == |c|
  }

  /**
   * `groupby(key)[col].transform(f)`, as the per-group loops and
   * `groupby(...).ffill()` compute it: each group is transformed on its
   * own, in row order, and each row takes the transformed value at its
   * rank in its group.
   */
  function GroupTransform(keys: seq<string>, col: Column, f: Column -> Column): (r: Column)
    requires |keys| == |col| && SameLength(f)
    ensures |r| == |col|
  {
    seq(|col|, i requires 0 <= i < |col| =>
      RankInRange(keys, i);
      f(Select(keys, col, keys[i]))[Rank(keys, i)])
  }

  /** Row i of a per-group transform is the transformed group read at row i's rank. */
  lemma TransformAt(keys: seq<string>, col: Column, f: Column -> Column, i: nat)
    requires |keys| == |col| && SameLength(f) && i < |keys|
    ensures Rank(keys, i) < |f(Select(keys, col, keys[i]))|
    ensures GroupTransform(keys, col, f)[i] == f(Select(keys, col, keys[i]))[Rank(keys, i)]
  {
    RankInRange(keys, i);
  }

  /** Groups do not mix: gathering one group of the transformed column is transforming that group. */
  lemma GatherAfterTransform(keys: seq<string>, col: Column, f: Column -> Column, d: string)
    requires |keys| == |col| && SameLength(f)
    ensures Select(keys, GroupTransform(keys, col, f), d) == f(Select(keys, col, d))
  {
    var t := GroupTransform(keys, col, f);
    var b := f(Select(keys, col, d));
    GatherPrefix(keys, col, f, d, |keys|);
    assert keys[..|keys|] == keys && t[..|keys|] == t;
    assert b[..Count(keys, d)] == b;
  }

  lemma {:induction false} GatherPrefix(keys: seq<string>, col: Column, f: Column -> Column, d: string, m: nat)
    requires |keys| == |col| && SameLength(f) && m <= |keys|
    ensures Count(keys[..m], d) <= Count(keys, d)
    ensures Select(keys[..m], GroupTransform(keys, col, f)[..m], d) ==
            f(Select(keys, col, d))[..Count(keys[..m], d)]
  {
    var t := GroupTransform(keys, col, f);
    if m == 0 {
      assert keys[..0] == [];
    } else {
      GatherPrefix(keys, col, f, d, m - 1);
      SelectStep(keys, t, m - 1, d);
      CountStep(keys, m - 1, d);
      RankInRange(keys, m - 1);
    }
  }

  /** Applying two per-group transforms in turn is applying their composition per group. */
  lemma GroupTransformCompose(keys: seq<string>, col: Column, f: Column -> Column, g: Column -> Column,
                              h: Column -> Column)
    requires |keys| == |col| && SameLength(f) && SameLength(g) && SameLength(h)
    requires forall c :: h(c) == g(f(c))
    ensures GroupTransform(keys, GroupTransform(keys, col, f), g) == GroupTransform(keys, col, h)
  {
    var once := GroupTransform(keys, col, f);
    forall i | 0 <= i < |col|
      ensures GroupTransform(keys, once, g)[i] == GroupTransform(keys, col, h)[i]
    {
      GatherAfterTransform(keys, col, f, keys[i]);
    }
  }

  // ----------------------------------------------------------------------
  // Writing one group at a time: `df.loc[df[key] == d, out] = values`

  /** Every row of group d takes the value at its rank; the rows before row m only. */
  function ScatterUpTo(keys: seq<string>, col: Column, d: string, values: Column, m: nat): (r: Column)
    requires |keys| == |col| && |values| == Count(keys, d) && m <= |keys|
    ensures |r| == |col|
  {
    seq(|col|, j requires 0 <= j < |col| =>
      if keys[j] == d && j < m then (RankInRange(keys, j); values[Rank(keys, j)]) else col[j])
  }

  /** `df.loc[df[key] == d, out] = values`: the group's rows take the values in order, the rest stay. */
  function Scatter(keys: seq<string>, col: Column, d: string, values: Column): (r: Column)
    requires |keys| == |col| && |values| == Count(keys, d)
    ensures |r| == |col|
  {
    ScatterUpTo(keys, col, d, values, |keys|)
  }

  /** A column written for the groups in done and missing elsewhere. */
  function Written(keys: seq<string>, spec: Column, done: seq<string>): (r: Column)
    requires |keys| == |spec|
    ensures |r| == |spec|
  {
    seq(|spec|, j requires 0 <= j < |spec| => if keys[j] in done then spec[j] else None)
  }

  /** Writing group d's transformed values extends the written groups by d. */
  lemma ScatterTransform(keys: seq<string>, col: Column, f: Column -> Column, done: seq<string>, d: string)
    requires |keys| == |col| && SameLength(f)
    ensures |f(Select(keys, col, d))| == Count(keys, d)
    ensures Scatter(keys, Written(keys, GroupTransform(keys, col, f), done), d, f(Select(keys, col, d))) ==
            Written(keys, GroupTransform(keys, col, f), done + [d])
  {
  }

  /** Once every group is written, the column is the whole transform. */
  lemma WrittenAll(keys: seq<string>, spec: Column)
    requires |keys| == |spec|
    ensures Written(keys, spec, Unique(keys)) == spec
  {
  }

  /**
   * The row loop of one `df.loc[mask, out] = values` assignment: a running
   * rank counts the group's rows met so far.
   */
  method WriteGroup(keys: seq<string>, col: Column, d: string, values: Column) returns (out: Column)
    requires |keys| == |col| && |values| == Count(keys, d)
    ensures out == Scatter(keys, col, d, values)
  {
    out := col;
    var rank := 0;
    for i := 0 to |keys|
      invariant rank == Count(keys[..i], d)
      invariant out == ScatterUpTo(keys, col, d, values, i)
    {
      CountStep(keys, i, d);
      if keys[i] == d {
        RankInRange(keys, i);
        out := out[i := values[rank]];
        rank := rank + 1;
      }
    }
    assert keys[..|keys|] == keys;
  }

  /** Distinct keys in order of first appearance: pandas `unique()`. */
  function Unique(s: seq<string>): (u: seq<string>)
    ensures NoDuplicates(u)
    ensures forall x :: x in u <==> x in s
    ensures |u| <= |s|
    ensures forall i, j :: 0 <= i < j < |u| ==> IndexOf(s, u[i]) < IndexOf(s, u[j])
  {
    if s == [] then []
    else
      var p := Unique(s[..|s| - 1]);
      assert s == s[..|s| - 1] + [s[|s| - 1]];
      FirstAppearanceStep(s, s[..|s| - 1], p);
      if s[|s| - 1] in p then p else p + [s[|s| - 1]]
  }

  /**
   * Keys listed in order of first appearance in the rows before the last
   * stay in that order in s, and a last key new to s comes after them all.
   */
  lemma FirstAppearanceStep(s: seq<string>, front: seq<string>, p: seq<string>)
    requires s != [] && front == s[..|s| - 1]
    requires forall i :: 0 <= i < |p| ==> p[i] in front
    requires forall x :: x in front ==> x in p
    requires forall i, j :: 0 <= i < j < |p| ==> IndexOf(front, p[i]) < IndexOf(front, p[j])
    ensures forall i :: 0 <= i < |p| ==> p[i] in s
    ensures forall i, j :: 0 <= i < j < |p| ==> IndexOf(s, p[i]) < IndexOf(s, p[j])
    ensures s[|s| - 1] !in p ==> forall i :: 0 <= i < |p| ==> IndexOf(s, p[i]) < IndexOf(s, s[|s| - 1])
  {
    var n := |s| - 1;
    forall i | 0 <= i < |p| ensures p[i] in s && IndexOf(s, p[i]) == IndexOf(front, p[i]) < n {
      IndexOfPrefix(s, n, p[i]);
    }
  }
}
