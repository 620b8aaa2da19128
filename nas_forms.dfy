/**
 * The form values the NAS calls of nas/nas.go send: the one-based indexed
 * `paths[i]` keys their loops append, and the split of a remote path into
 * directory and file name that `PutFile` uploads to.
 */
module NasForms {
  import opened Strings
  import opened Decimal
  import opened Request

  const PathsPrefix: string := "paths["

  /** `fmt.Sprintf("paths[%d]...", i)`: the prefix, the decimal index, the rest of the key. */
  function IndexedKey(i: nat, suffix: string): string
  {
    PathsPrefix + Format(i) + suffix
  }

  function PathKey(i: nat): string { IndexedKey(i, "]") }

  function RenamePathKey(i: nat): string { IndexedKey(i, "][path]") }

  function RenameNameKey(i: nat): string { IndexedKey(i, "][newName]") }

  /** A key that does not start with `paths[`, so no indexed key equals it. */
  predicate Unindexed(k: string)
  {
    !(|PathsPrefix| <= |k| && k[..|PathsPrefix|] == PathsPrefix)
  }

  lemma IndexedKeyIsIndexed(i: nat, suffix: string)
    ensures !Unindexed(IndexedKey(i, suffix))
  {
    assert IndexedKey(i, suffix)[..|PathsPrefix|] == PathsPrefix;
  }

  /**
   * Two indexed keys whose rest starts with `]` are equal only for the same
   * index and the same rest: the digits end where the `]` begins.
   */
  lemma IndexedKeyInjective(i: nat, j: nat, s: string, t: string)
    requires |s| > 0 && |t| > 0 && s[0] == ']' && t[0] == ']'
    requires IndexedKey(i, s) == IndexedKey(j, t)
    ensures i == j && s == t
  {
    var a, b := Format(i), Format(j);
    NatDigitsValue(i);
    NatDigitsValue(j);
    var x := IndexedKey(i, s);
    var n := |PathsPrefix|;
    assert x == PathsPrefix + (a + s) && x == PathsPrefix + (b + t);
    assert x[n..] == a + s == b + t;
    DigitsPrefix(a, s, b, t);
    FormatInjective(i, j);
  }

  lemma IndexedKeysDiffer(i: nat, j: nat, s: string, t: string)
    requires |s| > 0 && |t| > 0 && s[0] == ']' && t[0] == ']'
    requires i != j || s != t
    ensures IndexedKey(i, s) != IndexedKey(j, t)
  {
    if IndexedKey(i, s) == IndexedKey(j, t) {
      IndexedKeyInjective(i, j, s, t);
    }
  }

  /** One entry of `RenameObject`'s input: the object's path and its new name. */
  datatype RenameInput = RenameInput(from: string, to: string)

  /**
   * The values after a loop has added, for i = 1..|ps| in order, the path of
   * input i under `first(i)` and its new name under `second(i)`.
   */
  function AddPairs(p: Values, first: nat -> string, second: nat -> string, ps: seq<RenameInput>): Values
    decreases |ps|
  {
    if |ps| == 0 then p
    else
      var n := |ps|;
      Add(Add(AddPairs(p, first, second, ps[..n - 1]), first(n), ps[n - 1].from), second(n), ps[n - 1].to)
  }

  /** The values after a loop has added `vals[i - 1]` under `key(i)` for i = 1..|vals|, in order. */
  function AddIndexed(p: Values, key: nat -> string, vals: seq<string>): Values
    decreases |vals|
  {
    if |vals| == 0 then p
    else
      var n := |vals|;
      Add(AddIndexed(p, key, vals[..n - 1]), key(n), vals[n - 1])
  }

  /** The keys of indices 1..n are pairwise distinct and none is a key of the base. */
  predicate DistinctKeys(base: Values, key: nat -> string, n: nat)
  {
    && (forall i, j :: 1 <= i < j <= n ==> key(i) != key(j))
    && (forall i :: 1 <= i <= n ==> key(i) !in base)
  }

  /** The two key families of indices 1..n are distinct from each other, index by index. */
  predicate DistinctFamilies(first: nat -> string, second: nat -> string, n: nat)
  {
    forall i, j :: 1 <= i <= n && 1 <= j <= n ==> first(i) != second(j)
  }

  /** The keys of indices 1..n. */
  function KeySet(key: nat -> string, n: nat): set<string>
  {
    if n == 0 then {} else KeySet(key, n - 1) + {key(n)}
  }

  lemma {:induction false} KeySetMembers(key: nat -> string, n: nat)
    ensures forall k :: k in KeySet(key, n) <==> exists i :: 1 <= i <= n && k == key(i)
  {
    if n > 0 {
      KeySetMembers(key, n - 1);
      forall k | k in KeySet(key, n)
        ensures exists i :: 1 <= i <= n && k == key(i)
      {
        if k != key(n) {
          assert k in KeySet(key, n - 1);
        }
      }
    }
  }

  lemma {:induction false} NotInKeySet(key: nat -> string, n: nat, x: string)
    requires forall i :: 1 <= i <= n ==> key(i) != x
    ensures x !in KeySet(key, n)
  {
    if n > 0 {
      NotInKeySet(key, n - 1, x);
    }
  }

  /** Value i (one-based) of `vals`, alone, under `key(i)`. */
  predicate ValuesAt(key: nat -> string, vals: seq<string>, q: Values)
  {
    forall i :: 1 <= i <= |vals| ==> key(i) in q && q[key(i)] == [vals[i - 1]]
  }

  /** Every key of the base keeps its values. */
  predicate Keeps(base: Values, q: Values)
  {
    forall k :: k in base ==> k in q && q[k] == base[k]
  }

  /** No key besides those of the base and `keys`. */
  predicate OnlyKeys(base: Values, q: Values, keys: set<string>)
  {
    forall k :: k in q ==> k in base || k in keys
  }

  /** The indexed layout: value i alone under `key(i)`, in input order, the base untouched, and no other key. */
  predicate IndexedLayout(base: Values, key: nat -> string, vals: seq<string>, q: Values)
  {
    ValuesAt(key, vals, q) && Keeps(base, q) && OnlyKeys(base, q, KeySet(key, |vals|))
  }

  /** The paths of the rename inputs, in order. */
  function Froms(ps: seq<RenameInput>): (r: seq<string>)
    ensures |r| == |ps| && forall i :: 0 <= i < |ps| ==> r[i] == ps[i].from
  {
    if |ps| == 0 then [] else Froms(ps[..|ps| - 1]) + [ps[|ps| - 1].from]
  }

  /** The new names of the rename inputs, in order. */
  function Tos(ps: seq<RenameInput>): (r: seq<string>)
    ensures |r| == |ps| && forall i :: 0 <= i < |ps| ==> r[i] == ps[i].to
  {
    if |ps| == 0 then [] else Tos(ps[..|ps| - 1]) + [ps[|ps| - 1].to]
  }

  /**
   * The pair layout: the path of input i alone under `first(i)` and its new
   * name alone under `second(i)`, in input order, the base untouched, and no
   * other key.
   */
  predicate PairLayout(base: Values, first: nat -> string, second: nat -> string, ps: seq<RenameInput>, q: Values)
  {
    && ValuesAt(first, Froms(ps), q) && ValuesAt(second, Tos(ps), q)
    && Keeps(base, q) && OnlyKeys(base, q, KeySet(first, |ps|) + KeySet(second, |ps|))
  }

  lemma AddPreservesValuesAt(key: nat -> string, vals: seq<string>, q: Values, k: string, v: string)
    requires ValuesAt(key, vals, q)
    requires forall i :: 1 <= i <= |vals| ==> key(i) != k
    ensures ValuesAt(key, vals, Add(q, k, v))
  {
  }

  lemma AddExtendsValuesAt(key: nat -> string, vals: seq<string>, q: Values, v: string)
    requires ValuesAt(key, vals, q) && key(|vals| + 1) !in q
    ensures ValuesAt(key, vals + [v], Add(q, key(|vals| + 1), v))
  {
    var q1 := Add(q, key(|vals| + 1), v);
    forall i | 1 <= i <= |vals| + 1
      ensures key(i) in q1 && q1[key(i)] == [(vals + [v])[i - 1]]
    {
      if i <= |vals| {
        assert key(i) in q;
      }
    }
  }

  lemma AddPreservesKeeps(base: Values, q: Values, k: string, v: string)
    requires Keeps(base, q) && k !in base
    ensures Keeps(base, Add(q, k, v))
  {
  }

  lemma AddOnlyKeys(base: Values, q: Values, keys: set<string>, k: string, v: string)
    requires OnlyKeys(base, q, keys)
    ensures OnlyKeys(base, Add(q, k, v), keys + {k})
  {
  }

  lemma {:induction false} AddPairsLayout(base: Values, first: nat -> string, second: nat -> string, ps: seq<RenameInput>)
    requires DistinctKeys(base, first, |ps|) && DistinctKeys(base, second, |ps|)
    requires DistinctFamilies(first, second, |ps|)
    ensures PairLayout(base, first, second, ps, AddPairs(base, first, second, ps))
    decreases |ps|
  {
    if |ps| > 0 {
      var n := |ps|;
      AddPairsLayout(base, first, second, ps[..n - 1]);
      PairStep(base, first, second, ps, AddPairs(base, first, second, ps[..n - 1]));
    }
  }

  /** Adding the last input under its two fresh keys extends the layout of the others by it. */
  lemma PairStep(base: Values, first: nat -> string, second: nat -> string, ps: seq<RenameInput>, q: Values)
    requires |ps| > 0
    requires DistinctKeys(base, first, |ps|) && DistinctKeys(base, second, |ps|)
    requires DistinctFamilies(first, second, |ps|)
    requires PairLayout(base, first, second, ps[..|ps| - 1], q)
    ensures PairLayout(base, first, second, ps, Add(Add(q, first(|ps|), ps[|ps| - 1].from), second(|ps|), ps[|ps| - 1].to))
  {
    var n := |ps|;
    NotInKeySet(first, n - 1, first(n));
    NotInKeySet(second, n - 1, first(n));
    NotInKeySet(first, n - 1, second(n));
    NotInKeySet(second, n - 1, second(n));
    PairStepValues(first, second, ps, q);
    PairStepKeys(base, first, second, n, q, ps[n - 1].from, ps[n - 1].to);
  }

  /** The values half of `PairStep`: both families gain the last input's value. */
  lemma PairStepValues(first: nat -> string, second: nat -> string, ps: seq<RenameInput>, q: Values)
    requires |ps| > 0 && first(|ps|) !in q && second(|ps|) !in q
    requires forall i :: 1 <= i <= |ps| ==> first(i) != second(|ps|)
    requires forall i :: 1 <= i <= |ps| ==> second(i) != first(|ps|)
    requires ValuesAt(first, Froms(ps[..|ps| - 1]), q) && ValuesAt(second, Tos(ps[..|ps| - 1]), q)
    ensures var q2 := Add(Add(q, first(|ps|), ps[|ps| - 1].from), second(|ps|), ps[|ps| - 1].to);
      ValuesAt(first, Froms(ps), q2) && ValuesAt(second, Tos(ps), q2)
  {
    var n := |ps|;
    var prev, last := ps[..n - 1], ps[n - 1];
    assert Froms(ps) == Froms(prev) + [last.from];
    assert Tos(ps) == Tos(prev) + [last.to];
    assert |Froms(prev)| + 1 == n && |Tos(prev)| + 1 == n;
    ExtendThenPreserve(first, Froms(prev), q, last.from, second(n), last.to);
    PreserveThenExtend(second, Tos(prev), q, first(n), last.from, last.to);
  }

  /** A family gains its next value, and then a key outside the family is added. */
  lemma ExtendThenPreserve(key: nat -> string, vals: seq<string>, q: Values, v: string, k: string, w: string)
    requires ValuesAt(key, vals, q) && key(|vals| + 1) !in q
    requires forall i :: 1 <= i <= |vals| + 1 ==> key(i) != k
    ensures ValuesAt(key, vals + [v], Add(Add(q, key(|vals| + 1), v), k, w))
  {
    AddExtendsValuesAt(key, vals, q, v);
    AddPreservesValuesAt(key, vals + [v], Add(q, key(|vals| + 1), v), k, w);
  }

  /** A key outside a family is added, and then the family gains its next value. */
  lemma PreserveThenExtend(key: nat -> string, vals: seq<string>, q: Values, k: string, v: string, w: string)
    requires ValuesAt(key, vals, q) && key(|vals| + 1) !in q && key(|vals| + 1) != k
    requires forall i :: 1 <= i <= |vals| ==> key(i) != k
    ensures ValuesAt(key, vals + [w], Add(Add(q, k, v), key(|vals| + 1), w))
  {
    AddPreservesValuesAt(key, vals, q, k, v);
    AddExtendsValuesAt(key, vals, Add(q, k, v), w);
  }

  /** The keys half of `PairStep`: the base stays, and only the two new keys are added. */
  lemma PairStepKeys(base: Values, first: nat -> string, second: nat -> string, n: nat, q: Values, from: string, to: string)
    requires n > 0 && first(n) !in base && second(n) !in base
    requires Keeps(base, q) && OnlyKeys(base, q, KeySet(first, n - 1) + KeySet(second, n - 1))
    ensures var q2 := Add(Add(q, first(n), from), second(n), to);
      Keeps(base, q2) && OnlyKeys(base, q2, KeySet(first, n) + KeySet(second, n))
  {
    var q1 := Add(q, first(n), from);
    AddPreservesKeeps(base, q, first(n), from);
    AddPreservesKeeps(base, q1, second(n), to);
    var keys := KeySet(first, n - 1) + KeySet(second, n - 1);
    AddOnlyKeys(base, q, keys, first(n), from);
    AddOnlyKeys(base, q1, keys + {first(n)}, second(n), to);
    assert keys + {first(n)} + {second(n)} == KeySet(first, n) + KeySet(second, n);
  }

  lemma {:induction false} AddIndexedLayout(base: Values, key: nat -> string, vals: seq<string>)
    requires DistinctKeys(base, key, |vals|)
    ensures IndexedLayout(base, key, vals, AddIndexed(base, key, vals))
    decreases |vals|
  {
    if |vals| > 0 {
      var n := |vals|;
      AddIndexedLayout(base, key, vals[..n - 1]);
      IndexedStep(base, key, vals, AddIndexed(base, key, vals[..n - 1]));
    }
  }

  /** Adding the last value under its fresh key extends the layout of the others by it. */
  lemma IndexedStep(base: Values, key: nat -> string, vals: seq<string>, q: Values)
    requires |vals| > 0 && DistinctKeys(base, key, |vals|)
    requires IndexedLayout(base, key, vals[..|vals| - 1], q)
    ensures IndexedLayout(base, key, vals, Add(q, key(|vals|), vals[|vals| - 1]))
  {
    var n := |vals|;
    var prev, last := vals[..n - 1], vals[n - 1];
    NotInKeySet(key, n - 1, key(n));
    AddExtendsValuesAt(key, prev, q, last);
    AddPreservesKeeps(base, q, key(n), last);
    AddOnlyKeys(base, q, KeySet(key, n - 1), key(n), last);
    assert prev + [last] == vals;
  }

  /** The rename keys `paths[i][path]` and `paths[i][newName]` are distinct, and distinct from any unindexed key. */
  lemma RenameKeysDistinct(base: Values, n: nat)
    requires forall k :: k in base ==> Unindexed(k)
    ensures DistinctKeys(base, RenamePathKey, n) && DistinctKeys(base, RenameNameKey, n)
    ensures DistinctFamilies(RenamePathKey, RenameNameKey, n)
  {
    forall i, j | 1 <= i < j <= n
      ensures RenamePathKey(i) != RenamePathKey(j) && RenameNameKey(i) != RenameNameKey(j)
    {
      IndexedKeysDiffer(i, j, "][path]", "][path]");
      IndexedKeysDiffer(i, j, "][newName]", "][newName]");
    }
    forall i, j | 1 <= i <= n && 1 <= j <= n
      ensures RenamePathKey(i) != RenameNameKey(j)
    {
      IndexedKeysDiffer(i, j, "][path]", "][newName]");
    }
    forall i | 1 <= i <= n
      ensures RenamePathKey(i) !in base && RenameNameKey(i) !in base
    {
      IndexedKeyIsIndexed(i, "][path]");
      IndexedKeyIsIndexed(i, "][newName]");
    }
  }

  /** The delete and move keys `paths[i]` are distinct, and distinct from any unindexed key. */
  lemma PathKeysDistinct(base: Values, n: nat)
    requires forall k :: k in base ==> Unindexed(k)
    ensures DistinctKeys(base, PathKey, n)
  {
    forall i, j | 1 <= i < j <= n
      ensures PathKey(i) != PathKey(j)
    {
      IndexedKeysDiffer(i, j, "]", "]");
    }
    forall i | 1 <= i <= n
      ensures PathKey(i) !in base
    {
      IndexedKeyIsIndexed(i, "]");
    }
  }

  /**
   * `RenameObject`'s loop: input i under `paths[i][path]` and
   * `paths[i][newName]`. On a base without indexed keys the inputs are laid
   * out one-based, in order, and nothing else changes.
   */
  function AddRenames(p: Values, ps: seq<RenameInput>): (q: Values)
    ensures (forall k :: k in p ==> Unindexed(k)) ==> PairLayout(p, RenamePathKey, RenameNameKey, ps, q)
  {
    if forall k :: k in p ==> Unindexed(k) then
      RenameKeysDistinct(p, |ps|);
      AddPairsLayout(p, RenamePathKey, RenameNameKey, ps);
      AddPairs(p, RenamePathKey, RenameNameKey, ps)
    else
      AddPairs(p, RenamePathKey, RenameNameKey, ps)
  }

  /**
   * `DeleteObject`'s and `MoveObject`'s loop: path i under `paths[i]`. On a
   * base without indexed keys the paths are laid out one-based, in order,
   * and nothing else changes.
   */
  function AddPaths(p: Values, paths: seq<string>): (q: Values)
    ensures (forall k :: k in p ==> Unindexed(k)) ==> IndexedLayout(p, PathKey, paths, q)
  {
    if forall k :: k in p ==> Unindexed(k) then
      PathKeysDistinct(p, |paths|);
      AddIndexedLayout(p, PathKey, paths);
      AddIndexed(p, PathKey, paths)
    else
      AddIndexed(p, PathKey, paths)
  }

  /** The remote path of an upload, cut at its last `/`. */
  datatype RemotePath = RemotePath(dir: string, file: string)

  /**
   * `PutFile`'s split: `file` is the text after the last `/` and `dir`
   * everything before it; a path without `/` is a file name in directory "".
   */
  function SplitRemotePath(path: string): (r: RemotePath)
    ensures '/' !in r.file
    ensures '/' in path ==> r.dir + "/" + r.file == path
    ensures '/' !in path ==> r.dir == "" && r.file == path
  {
    var parts := Split(path, '/');
    var r := RemotePath(Join(parts[..|parts| - 1], '/'), parts[|parts| - 1]);
    JoinSplit(path, '/');
    CountZero(path, '/');
    if '/' in path then
      JoinLast(parts, '/');
      r
    else
      SplitNoSep(path, '/');
      r
  }
}
