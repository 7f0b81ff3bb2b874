/**
 * Checkpoint file names and the best-pool retention rule of `train.py`:
 * the regular checkpoint `<folder>/model_<step>_<loss:.5f>.h5`, the step
 * recovered from it on resume with `int(name.split('_')[-2])`, the best
 * checkpoints `best_model<step>_<eer:.5f>.h5`, and the retention rule that
 * ranks the `.h5` files of the best folder by `name.split('.')[-2]`,
 * descending, and removes all but the last four of that ranking.
 *
 * Metric values are non-negative fixed-point numbers in units of 10^-5,
 * which is exactly what `{:.5f}` writes.
 */
module Checkpoints {
  import opened Wrappers
  import opened Text
  import opened Collections

  /** The two ways `int(name.split('_')[-2])` can raise. */
  datatype ResumeError = IndexError | ValueError

  // ---------------------------------------------------------------------------
  // Regular checkpoints and resume

  /** `'{0}/model_{1}_{2}.h5'.format(folder, step, lossText)`. */
  function ModelCheckpointName(folder: string, step: int, lossText: string): string {
    folder + "/model_" + IntToString(step) + "_" + lossText + ".h5"
  }

  /**
   * `int(name.split('_')[-2])`: the step recorded in a checkpoint name. A
   * name without `_` has a single piece and raises IndexError; a piece
   * that is not an optionally signed decimal raises ValueError.
   */
  function ResumeStep(name: string): (r: Result<int, ResumeError>)
    ensures r == Err(IndexError) <==> '_' !in name
    ensures r.Ok? ==> var p := Split(name, '_'); ParseInt(p[|p| - 2]) == Some(r.value)
    ensures '_' in name ==> var p := Split(name, '_'); r.Ok? <==> ParseInt(p[|p| - 2]).Some?
  {
    var p := Split(name, '_');
    if |p| < 2 then Err(IndexError)
    else match ParseInt(p[|p| - 2])
      case None => Err(ValueError)
      case Some(n) => Ok(n)
  }

  lemma IntToStringNoSeparator(n: int, sep: char)
    requires sep != '-' && !IsDigit(sep)
    ensures sep !in IntToString(n)
  {
    var t := IntToString(n);
    forall i | 0 <= i < |t| ensures t[i] != sep {
    }
  }

  /**
   * The resume round trip: a checkpoint written at `step` is read back as
   * `step`, whatever the folder, as long as the loss text has no `_`.
   */
  lemma ResumeRoundTrip(folder: string, step: int, lossText: string)
    requires '_' !in lossText
    ensures ResumeStep(ModelCheckpointName(folder, step, lossText)) == Ok(step)
  {
    var stepText := IntToString(step);
    var head := folder + "/model";
    var tail := lossText + ".h5";
    assert ModelCheckpointName(folder, step, lossText) == head + ['_'] + (stepText + ['_'] + tail);
    IntToStringNoSeparator(step, '_');
    SplitAround(head, stepText + ['_'] + tail, '_');
    SplitAround(stepText, tail, '_');
    SplitNone(stepText, '_');
    SplitNone(tail, '_');
    IntRoundTrip(step);
  }

  /** `'{0}/grumodel_{1}_{2:.5f}.h5'.format(folder, step, loss)`. */
  function GruCheckpointName(folder: string, step: int, loss: nat): string {
    folder + "/grumodel_" + IntToString(step) + "_" + FixedPoint5(loss) + ".h5"
  }

  /** The loss text `{:.5f}` writes never holds `_`, so every regular checkpoint resumes. */
  lemma FixedPoint5NoUnderscore(e: nat)
    ensures '_' !in FixedPoint5(e)
  {
    var t := FixedPoint5(e);
    forall i | 0 <= i < |t| ensures t[i] != '_' {
    }
  }

  // ---------------------------------------------------------------------------
  // Best checkpoints and their retention key

  const BestModelPrefix := "best_model"
  const BestGruModelPrefix := "best_gru_model"

  /** `prefix + '{0}_{1:.5f}.h5'.format(step, eer)`. */
  function BestName(prefix: string, step: int, eer: nat): string {
    prefix + IntToString(step) + "_" + FixedPoint5(eer) + ".h5"
  }

  /** `f.endswith(".h5")`. */
  predicate IsH5(f: string) {
    |f| >= 3 && f[|f| - 3..] == ".h5"
  }

  /**
   * The retention key `file.split('/')[-1].split('.')[-2]`. Folder entries
   * are the base names `os.listdir` returns, which hold no `/`, so the first
   * split gives the name back and only `f.split('.')[-2]` is left.
   * Retention only applies it to `.h5` names, which always hold a `.`;
   * elsewhere it would raise IndexError and is given as "".
   */
  function Key(f: string): (k: string)
    ensures '.' !in k
  {
    var p := Split(f, '.');
    if |p| < 2 then "" else p[|p| - 2]
  }

  lemma H5HasDot(f: string)
    requires IsH5(f)
    ensures '.' in f
  {
    assert f[|f| - 3] == f[|f| - 3..][0] == '.';
  }

  /**
   * The key of a best checkpoint is the five fractional digits of its
   * metric and nothing else: the integer part and the step are not part
   * of it.
   */
  lemma BestNameKey(prefix: string, step: int, eer: nat)
    requires '.' !in prefix
    ensures IsH5(BestName(prefix, step, eer))
    ensures Key(BestName(prefix, step, eer)) == PadDigits(eer % 100000, 5)
  {
    var head := prefix + IntToString(step) + "_" + NatToString(eer / 100000);
    var frac := PadDigits(eer % 100000, 5);
    assert BestName(prefix, step, eer) == head + ['.'] + (frac + ['.'] + "h5");
    IntToStringNoSeparator(step, '.');
    assert '.' !in NatToString(eer / 100000);
    assert '.' !in head;
    KeyOfDottedName(head, frac);
  }

  /** A `.h5` name with exactly one other `.` is keyed by the text between the two. */
  lemma KeyOfDottedName(head: string, frac: string)
    requires '.' !in head && '.' !in frac
    ensures IsH5(head + ['.'] + (frac + ['.'] + "h5"))
    ensures Key(head + ['.'] + (frac + ['.'] + "h5")) == frac
  {
    var name := head + ['.'] + (frac + ['.'] + "h5");
    assert name[|name| - 3..] == ".h5";
    SplitAround(head, frac + ['.'] + "h5", '.');
    SplitAround(frac, "h5", '.');
    SplitNone(head, '.');
    SplitNone(frac, '.');
    SplitNone("h5", '.');
  }

  /**
   * For metrics below 1.0 the retention key orders best checkpoints exactly
   * as their metrics do: the fractional digits all have the same width.
   */
  lemma KeyOrderBelowOne(p1: string, s1: int, e1: nat, p2: string, s2: int, e2: nat)
    requires '.' !in p1 && '.' !in p2
    requires e1 < 100000 && e2 < 100000
    ensures LexLe(Key(BestName(p1, s1, e1)), Key(BestName(p2, s2, e2))) <==> e1 <= e2
  {
    var k1, k2 := Key(BestName(p1, s1, e1)), Key(BestName(p2, s2, e2));
    BestNameKey(p1, s1, e1);
    BestNameKey(p2, s2, e2);
    FractionOrder(k1, k2, e1, e2);
  }

  /** Two keys that are the padded fractions of metrics below 1.0 compare as the metrics do. */
  lemma FractionOrder(k1: string, k2: string, e1: nat, e2: nat)
    requires e1 < 100000 && e2 < 100000
    requires k1 == PadDigits(e1 % 100000, 5) && k2 == PadDigits(e2 % 100000, 5)
    ensures LexLe(k1, k2) <==> e1 <= e2
  {
    assert e1 % 100000 == e1 && e2 % 100000 == e2;
    PadDigitsOrder(e1, e2, 5);
  }

  /**
   * As written, the key ranks by the fractional digits alone: a checkpoint
   * with the larger fractional part has the strictly larger key, so the
   * descending ranking puts it first (among the files removed first), even
   * when its metric as a whole is the smaller one.
   */
  lemma KeyRanksByFraction(prefix: string, s1: int, e1: nat, s2: int, e2: nat)
    requires '.' !in prefix
    requires e1 % 100000 < e2 % 100000
    ensures LexLe(Key(BestName(prefix, s1, e1)), Key(BestName(prefix, s2, e2)))
    ensures !LexLe(Key(BestName(prefix, s2, e2)), Key(BestName(prefix, s1, e1)))
  {
    BestNameKey(prefix, s1, e1);
    BestNameKey(prefix, s2, e2);
    PadDigitsOrder(e1 % 100000, e2 % 100000, 5);
    PadDigitsOrder(e2 % 100000, e1 % 100000, 5);
  }

  /**
   * The consequence: a metric of 1.00000 gets the key "00000", strictly
   * smaller than that of 0.50000, so the descending ranking puts it after
   * 0.50000 and a retention pass keeps it, removing the better 0.50000
   * checkpoint first.
   */
  lemma KeyRanksEerOneLast(step1: int, step2: int)
    ensures LexLe(Key(BestName(BestModelPrefix, step1, 100000)), Key(BestName(BestModelPrefix, step2, 50000)))
    ensures !LexLe(Key(BestName(BestModelPrefix, step2, 50000)), Key(BestName(BestModelPrefix, step1, 100000)))
  {
    var one, half := 100000, 50000;
    assert one % 100000 == 0 && half % 100000 == half;
    KeyRanksByFraction(BestModelPrefix, step1, one, step2, half);
  }

  // ---------------------------------------------------------------------------
  // The stable descending sort `sorted(..., key=..., reverse=True)`

  /** `le` is a total preorder on the values in question. */
  ghost predicate TotalPreorder<T(!new)>(le: (T, T) -> bool) {
    && (forall a, b :: le(a, b) || le(b, a))
    && (forall a, b, c :: le(a, b) && le(b, c) ==> le(a, c))
  }

  /** Descending under `le`: nothing is above anything before it. */
  predicate SortedDesc<T>(s: seq<T>, le: (T, T) -> bool) {
    forall i, j :: 0 <= i < j < |s| ==> le(s[j], s[i])
  }

  /** Insert `x` ahead of the first element that is not above it, as a stable sort does. */
  function InsertDesc<T(!new)>(x: T, s: seq<T>, le: (T, T) -> bool): (r: seq<T>)
    requires TotalPreorder(le) && SortedDesc(s, le)
    ensures SortedDesc(r, le)
    ensures multiset(r) == multiset(s) + multiset{x}
    ensures |r| > 0 && (r[0] == x || (|s| > 0 && r[0] == s[0]))
  {
    if |s| == 0 then [x]
    else if le(s[0], x) then
      HeadBelow(x, s, s, le);
      ConsDesc(x, s, le);
      [x] + s
    else
      var rest := InsertDesc(x, s[1..], le);
      assert s == [s[0]] + s[1..];
      HeadBelow(s[0], s[1..], rest, le);
      ConsDesc(s[0], rest, le);
      [s[0]] + rest
  }

  /**
   * Everything in `r` is at or below `h` when `r` holds the elements of a
   * list headed by `h` (in `[h] + s` order) plus one more that `h` beats.
   */
  lemma HeadBelow<T(!new)>(h: T, s: seq<T>, r: seq<T>, le: (T, T) -> bool)
    requires TotalPreorder(le) && SortedDesc([h] + s, le)
    requires exists x :: le(x, h) && multiset(r) <= multiset(s) + multiset{x}
    ensures forall z :: z in r ==> le(z, h)
  {
    var x :| le(x, h) && multiset(r) <= multiset(s) + multiset{x};
    forall z | z in r ensures le(z, h) {
      assert z in multiset(r);
      if z != x {
        assert z in multiset(s);
        var j :| 0 <= j < |s| && s[j] == z;
        assert ([h] + s)[0] == h && ([h] + s)[1 + j] == z;
      }
    }
  }

  /** A descending list stays descending under a head at or above all of it. */
  lemma ConsDesc<T>(h: T, rest: seq<T>, le: (T, T) -> bool)
    requires SortedDesc(rest, le)
    requires forall z :: z in rest ==> le(z, h)
    ensures SortedDesc([h] + rest, le)
  {
    var s := [h] + rest;
    forall i, j | 0 <= i < j < |s| ensures le(s[j], s[i]) {
      assert s[j] == rest[j - 1];
      if i > 0 {
        assert s[i] == rest[i - 1];
      }
    }
  }

  /** Python's `sorted(xs, key=..., reverse=True)`: descending, and a permutation of `xs`. */
  function SortDesc<T(!new)>(xs: seq<T>, le: (T, T) -> bool): (r: seq<T>)
    requires TotalPreorder(le)
    ensures SortedDesc(r, le)
    ensures multiset(r) == multiset(xs)
  {
    if |xs| == 0 then []
    else
      assert xs == [xs[0]] + xs[1..];
      InsertDesc(xs[0], SortDesc(xs[1..], le), le)
  }

  /** In a descending sequence everything in a prefix is above everything after it. */
  lemma PrefixAboveSuffix<T>(v: seq<T>, k: seq<T>, le: (T, T) -> bool)
    requires SortedDesc(v + k, le)
    ensures forall x, y :: x in v && y in k ==> le(y, x)
  {
    var s := v + k;
    forall x, y | x in v && y in k ensures le(y, x) {
      var i :| 0 <= i < |v| && v[i] == x;
      var j :| 0 <= j < |k| && k[j] == y;
      assert s[i] == x && s[|v| + j] == y;
    }
  }

  /** `files[:-4]`: all but the last four, none when there are at most four. */
  function DropLastFour<T>(s: seq<T>): (r: seq<T>)
    ensures |r| == if |s| <= 4 then 0 else |s| - 4
    ensures r == s[..|r|]
  {
    if |s| <= 4 then [] else s[..|s| - 4]
  }

  /** `files[-4:]`: the last four, or all of them when there are fewer. */
  function LastFour<T>(s: seq<T>): (r: seq<T>)
    ensures |r| == if |s| <= 4 then |s| else 4
    ensures s == DropLastFour(s) + r
  {
    if |s| <= 4 then s else s[|s| - 4..]
  }

  /** The order on file names the retention rule sorts by. */
  function KeyLe(): (le: (string, string) -> bool)
    ensures TotalPreorder(le)
    ensures forall a, b :: le(a, b) == LexLe(Key(a), Key(b))
  {
    var le := (a: string, b: string) => LexLe(Key(a), Key(b));
    forall a, b ensures le(a, b) || le(b, a) {
      LexLeTotal(Key(a), Key(b));
    }
    forall a, b, c | le(a, b) && le(b, c) ensures le(a, c) {
      LexLeTransitive(Key(a), Key(b), Key(c));
    }
    le
  }

  // ---------------------------------------------------------------------------
  // The best folder and one retention pass

  /** The `.h5` files of a folder listing, in listing order. */
  function H5Files(dir: seq<string>): (r: seq<string>)
    ensures forall f :: f in r <==> f in dir && IsH5(f)
    ensures Distinct(dir) ==> Distinct(r)
  {
    if |dir| == 0 then []
    else
      var rest := H5Files(dir[1..]);
      assert forall f :: f in dir <==> f == dir[0] || f in dir[1..];
      if IsH5(dir[0]) then [dir[0]] + rest else rest
  }

  /** The listing after `os.remove` of every file in `gone`. */
  function Without<T(==,!new)>(dir: seq<T>, gone: seq<T>): (r: seq<T>)
    ensures forall f :: f in r <==> f in dir && f !in gone
    ensures Distinct(dir) ==> Distinct(r)
    ensures |gone| == 0 ==> r == dir
  {
    if |dir| == 0 then []
    else
      var rest := Without(dir[1..], gone);
      assert forall f :: f in dir <==> f == dir[0] || f in dir[1..];
      if dir[0] in gone then rest else [dir[0]] + rest
  }

  /** Removing files one at a time removes them all. */
  lemma {:induction false} WithoutOneMore<T(!new)>(dir: seq<T>, gone: seq<T>, f: T)
    ensures Without(Without(dir, gone), [f]) == Without(dir, gone + [f])
    decreases |dir|
  {
    if |dir| > 0 {
      WithoutOneMore(dir[1..], gone, f);
    }
  }

  /** Removing the next file of `gone` extends the removed prefix by one. */
  lemma WithoutPrefixStep<T(!new)>(dir: seq<T>, gone: seq<T>, i: nat)
    requires i < |gone|
    ensures Without(Without(dir, gone[..i]), [gone[i]]) == Without(dir, gone[..i + 1])
  {
    var p := gone[..i];
    assert gone[..i + 1] == p + [gone[i]];
    WithoutOneMore(dir, p, gone[i]);
  }

  /**
   * Removing the leading part `v` of a duplicate-free ranking `v + k` of a
   * folder leaves exactly the files of `k`.
   */
  lemma PruneToSuffix<T(!new)>(dir: seq<T>, s: seq<T>, v: seq<T>, k: seq<T>)
    requires Distinct(dir) && multiset(s) == multiset(dir) && s == v + k && Distinct(s)
    ensures forall f :: f in Without(dir, v) <==> f in k
    ensures |Without(dir, v)| == |k|
  {
    SplitDisjoint(v, k);
    forall i, j | 0 <= i < j < |k| ensures k[i] != k[j] {
      assert s[|v| + i] == k[i] && s[|v| + j] == k[j];
    }
    MultisetMembers(s, dir);
    var pruned := Without(dir, v);
    forall f ensures f in pruned <==> f in k {
      assert f in s <==> f in v || f in k;
    }
    SameMembersSameLength(pruned, k);
  }

  /** `save_weights(name)`: the folder gains the file unless it already holds it. */
  function AddFile<T(==,!new)>(dir: seq<T>, name: T): (r: seq<T>)
    ensures forall f :: f in r <==> f in dir || f == name
    ensures Distinct(dir) ==> Distinct(r)
  {
    if name in dir then dir else dir + [name]
  }

  /** The `.h5` files ranked by key, descending. */
  function Ranked(dir: seq<string>): (r: seq<string>)
    ensures SortedDesc(r, KeyLe())
    ensures multiset(r) == multiset(H5Files(dir))
  {
    SortDesc(H5Files(dir), KeyLe())
  }

  /** `files[:-4]`: every ranked file but the last four. */
  function Victims(dir: seq<string>): seq<string> {
    DropLastFour(Ranked(dir))
  }

  /** `files[-4:]`: the files a retention pass leaves in place. */
  function Survivors(dir: seq<string>): seq<string> {
    LastFour(Ranked(dir))
  }

  /** A retention pass followed by writing the new best checkpoint. */
  function AfterBestSave(dir: seq<string>, name: string): seq<string> {
    AddFile(Without(dir, Victims(dir)), name)
  }

  /** The ranking splits into the removed prefix and the surviving suffix. */
  lemma RankedSplit(dir: seq<string>)
    requires Distinct(dir)
    ensures Distinct(Ranked(dir))
    ensures Ranked(dir) == Victims(dir) + Survivors(dir)
    ensures forall f :: f in Ranked(dir) <==> f in dir && IsH5(f)
  {
    PermutationDistinct(H5Files(dir), Ranked(dir));
    MultisetMembers(Ranked(dir), H5Files(dir));
  }

  /**
   * One retention pass leaves exactly `min(n, 4)` of the folder's `n`
   * `.h5` files and removes nothing else.
   */
  lemma PruneKeepsFour(dir: seq<string>)
    requires Distinct(dir)
    ensures var n := |H5Files(dir)|;
      |H5Files(Without(dir, Victims(dir)))| == if n <= 4 then n else 4
    ensures forall f :: f in dir && !IsH5(f) ==> f in Without(dir, Victims(dir))
    ensures forall f :: f in H5Files(Without(dir, Victims(dir))) <==> f in Survivors(dir)
  {
    var s, v, k := Ranked(dir), Victims(dir), Survivors(dir);
    RankedSplit(dir);
    H5FilesWithout(dir, v);
    PruneToSuffix(H5Files(dir), s, v, k);
    assert |s| == |H5Files(dir)| by {
      assert |multiset(s)| == |multiset(H5Files(dir))|;
    }
    assert forall f :: f in v ==> f in s;
  }

  /** Filtering for `.h5` files commutes with removing files. */
  lemma {:induction false} H5FilesWithout(dir: seq<string>, gone: seq<string>)
    ensures H5Files(Without(dir, gone)) == Without(H5Files(dir), gone)
    decreases |dir|
  {
    if |dir| > 0 {
      H5FilesWithout(dir[1..], gone);
      var rest := Without(dir[1..], gone);
      assert ([dir[0]] + rest)[1..] == rest;
      var hs := H5Files(dir[1..]);
      assert ([dir[0]] + hs)[1..] == hs;
    }
  }

  /** Every file a retention pass removes has a key at least that of every file it keeps. */
  lemma RemovedKeysAboveKept(dir: seq<string>)
    ensures forall v, k :: v in Victims(dir) && k in Survivors(dir) ==> LexLe(Key(k), Key(v))
  {
    PrefixAboveSuffix(Victims(dir), Survivors(dir), KeyLe());
  }

  /** Appending a file to the listing appends it to the `.h5` files when it is one. */
  lemma {:induction false} H5FilesAppend(dir: seq<string>, name: string)
    ensures H5Files(dir + [name]) == H5Files(dir) + (if IsH5(name) then [name] else [])
    decreases |dir|
  {
    if |dir| > 0 {
      assert (dir + [name])[1..] == dir[1..] + [name];
      H5FilesAppend(dir[1..], name);
    } else {
      assert ([] + [name])[1..] == [];
    }
  }

  /** Writing a file adds one `.h5` file exactly when it is a new `.h5` name. */
  lemma AddFileH5Count(dir: seq<string>, name: string)
    ensures |H5Files(AddFile(dir, name))| == |H5Files(dir)| + (if IsH5(name) && name !in dir then 1 else 0)
  {
    if name !in dir {
      H5FilesAppend(dir, name);
    }
  }

  /**
   * After a best save the folder holds at most five `.h5` files: the four
   * a retention pass keeps plus the new one.
   */
  lemma PoolAtMostFive(dir: seq<string>, name: string)
    requires Distinct(dir)
    ensures |H5Files(AfterBestSave(dir, name))| <= 5
  {
    PruneKeepsFour(dir);
    AddFileH5Count(Without(dir, Victims(dir)), name);
  }

  /**
   * Five is reached: a folder with exactly four `.h5` files holds five
   * once a new best checkpoint is written.
   */
  lemma PoolReachesFive(dir: seq<string>, name: string)
    requires Distinct(dir) && |H5Files(dir)| >= 4
    requires IsH5(name) && name !in Without(dir, Victims(dir))
    ensures |H5Files(AfterBestSave(dir, name))| == 5
  {
    PruneKeepsFour(dir);
    AddFileH5Count(Without(dir, Victims(dir)), name);
  }

  // ---------------------------------------------------------------------------
  // Retention ranked by the metric itself

  /** A best checkpoint together with the metric it was saved for. */
  datatype BestRecord = BestRecord(name: string, eer: nat)

  function EerLe(): (le: (BestRecord, BestRecord) -> bool)
    ensures TotalPreorder(le)
    ensures forall a, b :: le(a, b) == (a.eer <= b.eer)
  {
    (a: BestRecord, b: BestRecord) => a.eer <= b.eer
  }

  /** The records ranked by metric, descending. */
  function RankedRecords(pool: seq<BestRecord>): (r: seq<BestRecord>)
    ensures SortedDesc(r, EerLe())
    ensures multiset(r) == multiset(pool)
  {
    SortDesc(pool, EerLe())
  }

  /** The records a retention pass ranked by metric removes: all but the four best. */
  function RecordVictims(pool: seq<BestRecord>): seq<BestRecord> {
    DropLastFour(RankedRecords(pool))
  }

  function RecordSurvivors(pool: seq<BestRecord>): seq<BestRecord> {
    LastFour(RankedRecords(pool))
  }

  /**
   * Ranked by the metric, a retention pass never removes a checkpoint whose
   * metric is better than one it keeps, whatever the metric's integer part.
   */
  lemma RecordRetentionByMetric(pool: seq<BestRecord>)
    ensures forall v, k :: v in RecordVictims(pool) && k in RecordSurvivors(pool) ==> k.eer <= v.eer
  {
    PrefixAboveSuffix(RecordVictims(pool), RecordSurvivors(pool), EerLe());
  }

  /** The pass splits the pool into removed and kept records and keeps `min(n, 4)` of them. */
  lemma RecordRetentionKeepsFour(pool: seq<BestRecord>)
    ensures |RecordSurvivors(pool)| == if |pool| <= 4 then |pool| else 4
    ensures multiset(RecordVictims(pool) + RecordSurvivors(pool)) == multiset(pool)
  {
    var s := RankedRecords(pool);
    assert |s| == |pool| by {
      assert |multiset(s)| == |multiset(pool)|;
    }
  }

  /**
   * The retention pass as intended, on best checkpoints known with their
   * metric: remove all but the four best by metric, then write the new one.
   */
  function AfterBestRecord(pool: seq<BestRecord>, rec: BestRecord): seq<BestRecord> {
    AddFile(Without(pool, RecordVictims(pool)), rec)
  }

  /** The ranking by metric splits into the removed and the kept records. */
  lemma RecordSplit(pool: seq<BestRecord>)
    requires Distinct(pool)
    ensures RankedRecords(pool) == RecordVictims(pool) + RecordSurvivors(pool)
    ensures Distinct(RankedRecords(pool))
    ensures |RecordSurvivors(pool)| <= 4
  {
    PermutationDistinct(pool, RankedRecords(pool));
  }

  /** The intended pass leaves exactly the kept records, at most four of them. */
  lemma RecordPruned(pool: seq<BestRecord>)
    requires Distinct(pool)
    ensures var pruned := Without(pool, RecordVictims(pool));
      (forall f :: f in pruned <==> f in RecordSurvivors(pool)) && |pruned| <= 4
  {
    RecordSplit(pool);
    PruneToSuffix(pool, RankedRecords(pool), RecordVictims(pool), RecordSurvivors(pool));
  }

  /**
   * After an intended best save the folder holds at most five checkpoints,
   * the new one among them, each either the new one or an old one no worse
   * than any the pass removed.
   */
  lemma RecordPoolAfterSave(pool: seq<BestRecord>, rec: BestRecord)
    requires Distinct(pool)
    ensures Distinct(AfterBestRecord(pool, rec))
    ensures |AfterBestRecord(pool, rec)| <= 5 && rec in AfterBestRecord(pool, rec)
    ensures forall k :: k in AfterBestRecord(pool, rec) ==> k == rec || k in pool
    ensures forall k, v :: k in AfterBestRecord(pool, rec) && k != rec && v in RecordVictims(pool) ==> k.eer <= v.eer
  {
    RecordPruned(pool);
    RecordRetentionByMetric(pool);
  }

  // ---------------------------------------------------------------------------
  // The two passes agree on metrics below 1.0

  /** `[f(x) for x in s]`. */
  function MapSeq<T, U>(f: T -> U, s: seq<T>): (r: seq<U>)
    ensures |r| == |s| && forall i :: 0 <= i < |s| ==> r[i] == f(s[i])
  {
    seq(|s|, i requires 0 <= i < |s| => f(s[i]))
  }

  /** `f` carries the order `le2` among the elements of `xs` to the order `le1` among their images. */
  ghost predicate OrderCarried<T, U>(f: T -> U, le1: (U, U) -> bool, le2: (T, T) -> bool, xs: seq<T>) {
    forall a, b :: a in xs && b in xs ==> le1(f(a), f(b)) == le2(a, b)
  }

  /*
   * The next two facts are stated apart so that `InsertDescMap`, which
   * carries a total preorder on each side, does not search for them among
   * its own quantifiers.
   */

  /** The images of a list with a head are the head's image followed by the tail's images. */
  lemma MapSeqCons<T, U>(f: T -> U, h: T, t: seq<T>)
    ensures MapSeq(f, [h] + t) == [f(h)] + MapSeq(f, t)
  {
    assert forall i :: 0 < i <= |t| ==> ([h] + t)[i] == t[i - 1];
  }

  /** An order carried on a list is carried on any list of its elements. */
  lemma OrderCarriedSub<T, U>(f: T -> U, le1: (U, U) -> bool, le2: (T, T) -> bool, xs: seq<T>, ys: seq<T>)
    requires OrderCarried(f, le1, le2, ys) && forall a :: a in xs ==> a in ys
    ensures OrderCarried(f, le1, le2, xs)
  {
  }

  /** Inserting an image among images is the image of the insertion. */
  lemma {:induction false} InsertDescMap<T(!new), U(!new)>(f: T -> U, le1: (U, U) -> bool, le2: (T, T) -> bool, x: T, s: seq<T>)
    requires TotalPreorder(le1) && TotalPreorder(le2)
    requires SortedDesc(s, le2) && SortedDesc(MapSeq(f, s), le1)
    requires OrderCarried(f, le1, le2, [x] + s)
    ensures InsertDesc(f(x), MapSeq(f, s), le1) == MapSeq(f, InsertDesc(x, s, le2))
    decreases |s|
  {
    var m := MapSeq(f, s);
    if |s| == 0 {
      MapSeqCons(f, x, s);
    } else {
      assert s[0] in [x] + s && x in [x] + s;
      if le2(s[0], x) {
        MapSeqCons(f, x, s);
      } else {
        var tail := s[1..];
        assert m[1..] == MapSeq(f, tail);
        assert forall a :: a in [x] + tail ==> a in [x] + s;
        OrderCarriedSub(f, le1, le2, [x] + tail, [x] + s);
        InsertDescMap(f, le1, le2, x, tail);
        MapSeqCons(f, s[0], InsertDesc(x, tail, le2));
      }
    }
  }

  /** Sorting the images by `le1` gives the images of the sort by `le2`: it is one insertion sort. */
  lemma {:induction false} SortDescMap<T(!new), U(!new)>(f: T -> U, le1: (U, U) -> bool, le2: (T, T) -> bool, xs: seq<T>)
    requires TotalPreorder(le1) && TotalPreorder(le2)
    requires OrderCarried(f, le1, le2, xs)
    ensures SortDesc(MapSeq(f, xs), le1) == MapSeq(f, SortDesc(xs, le2))
    decreases |xs|
  {
    if |xs| > 0 {
      var m := MapSeq(f, xs);
      assert m[1..] == MapSeq(f, xs[1..]);
      assert OrderCarried(f, le1, le2, xs[1..]) by {
        forall a | a in xs[1..] ensures a in xs {
        }
      }
      SortDescMap(f, le1, le2, xs[1..]);
      var sorted := SortDesc(xs[1..], le2);
      assert OrderCarried(f, le1, le2, [xs[0]] + sorted) by {
        forall a | a in [xs[0]] + sorted ensures a in xs {
          if a != xs[0] {
            assert a in multiset(sorted);
            assert a in multiset(xs[1..]);
          }
        }
      }
      InsertDescMap(f, le1, le2, xs[0], sorted);
    }
  }

  /** Dropping the last four commutes with taking images. */
  lemma DropLastFourMap<T, U>(f: T -> U, s: seq<T>)
    ensures DropLastFour(MapSeq(f, s)) == MapSeq(f, DropLastFour(s))
  {
    var r := DropLastFour(s);
    assert MapSeq(f, s)[..|r|] == MapSeq(f, r);
  }

  function NameOf(r: BestRecord): string {
    r.name
  }

  /** The file names of a pool of best records, in order. */
  function Names(pool: seq<BestRecord>): (r: seq<string>)
    ensures |r| == |pool| && forall i :: 0 <= i < |pool| ==> r[i] == pool[i].name
  {
    MapSeq(NameOf, pool)
  }

  /** No two different records of `pool` share a file name. */
  ghost predicate NameDetermines(pool: seq<BestRecord>) {
    forall a, b :: a in pool && b in pool && a.name == b.name ==> a == b
  }

  /** A record below 1.0 whose `.h5` name is keyed by its metric's five digits, as `BestName` writes it. */
  predicate KeyedBelowOne(r: BestRecord) {
    r.eer < 100000 && IsH5(r.name) && Key(r.name) == PadDigits(r.eer % 100000, 5)
  }

  /** Every best checkpoint saved below 1.0 is keyed by its metric. */
  lemma BestNameKeyed(prefix: string, step: int, eer: nat)
    requires '.' !in prefix && eer < 100000
    ensures KeyedBelowOne(BestRecord(BestName(prefix, step, eer), eer))
  {
    BestNameKey(prefix, step, eer);
  }

  /** Filtering a folder of `.h5` names keeps every name. */
  lemma {:induction false} H5FilesAll(dir: seq<string>)
    requires forall i :: 0 <= i < |dir| ==> IsH5(dir[i])
    ensures H5Files(dir) == dir
    decreases |dir|
  {
    if |dir| > 0 {
      H5FilesAll(dir[1..]);
    }
  }

  /** Among records whose names determine them, a record is in `gone` exactly when its name is. */
  lemma NameMember(x: BestRecord, gone: seq<BestRecord>, both: seq<BestRecord>)
    requires NameDetermines(both) && x in both && forall g :: g in gone ==> g in both
    ensures x.name in Names(gone) <==> x in gone
  {
    if x.name in Names(gone) {
      var i :| 0 <= i < |gone| && Names(gone)[i] == x.name;
      assert gone[i] in both;
    }
    if x in gone {
      var i :| 0 <= i < |gone| && gone[i] == x;
      assert Names(gone)[i] == x.name;
    }
  }

  /** Removing images is removing the elements, when `f` tells removed elements from kept ones. */
  lemma {:induction false} WithoutMap<T(!new), U(!new)>(f: T -> U, pool: seq<T>, gone: seq<T>)
    requires forall i :: 0 <= i < |pool| ==> (f(pool[i]) in MapSeq(f, gone) <==> pool[i] in gone)
    ensures Without(MapSeq(f, pool), MapSeq(f, gone)) == MapSeq(f, Without(pool, gone))
    decreases |pool|
  {
    if |pool| > 0 {
      var m, tail := MapSeq(f, pool), pool[1..];
      assert m[1..] == MapSeq(f, tail);
      assert forall i :: 0 <= i < |tail| ==> tail[i] == pool[i + 1];
      WithoutMap(f, tail, gone);
      if pool[0] !in gone {
        var rest := Without(tail, gone);
        assert MapSeq(f, [pool[0]] + rest) == [f(pool[0])] + MapSeq(f, rest);
      }
    }
  }

  /** Removing by name is removing the records, when names determine records among both lists. */
  lemma WithoutNames(pool: seq<BestRecord>, gone: seq<BestRecord>, both: seq<BestRecord>)
    requires NameDetermines(both)
    requires forall x :: x in pool ==> x in both
    requires forall x :: x in gone ==> x in both
    ensures Without(Names(pool), Names(gone)) == Names(Without(pool, gone))
  {
    forall i | 0 <= i < |pool| ensures NameOf(pool[i]) in MapSeq(NameOf, gone) <==> pool[i] in gone {
      NameMember(pool[i], gone, both);
    }
    WithoutMap(NameOf, pool, gone);
  }

  /** Writing a file by name is writing its record, when names determine records. */
  lemma AddFileName(pool: seq<BestRecord>, rec: BestRecord)
    requires NameDetermines(pool + [rec])
    ensures AddFile(Names(pool), rec.name) == Names(AddFile(pool, rec))
  {
    if rec.name in Names(pool) {
      var i :| 0 <= i < |pool| && Names(pool)[i] == rec.name;
      assert pool[i] in pool + [rec] && rec in pool + [rec];
    } else {
      assert Names(pool + [rec]) == Names(pool) + [rec.name];
    }
  }

  /**
   * On best checkpoints saved below 1.0 the retention pass as written and
   * the pass ranked by the metric remove and keep the same files: the key
   * orders them as their metrics do, and both passes run one insertion
   * sort. Only metrics of 1.0 and above tell them apart.
   */
  lemma KeyPassAgreesBelowOne(pool: seq<BestRecord>, rec: BestRecord)
    requires forall r :: r in pool ==> KeyedBelowOne(r)
    requires NameDetermines(pool + [rec])
    ensures Victims(Names(pool)) == Names(RecordVictims(pool))
    ensures AfterBestSave(Names(pool), rec.name) == Names(AfterBestRecord(pool, rec))
  {
    var ns := Names(pool);
    forall i | 0 <= i < |ns| ensures IsH5(ns[i]) {
      assert pool[i] in pool;
    }
    H5FilesAll(ns);
    assert OrderCarried(NameOf, KeyLe(), EerLe(), pool) by {
      forall a, b | a in pool && b in pool
        ensures KeyLe()(NameOf(a), NameOf(b)) == EerLe()(a, b)
      {
        FractionOrder(Key(a.name), Key(b.name), a.eer, b.eer);
      }
    }
    SortDescMap(NameOf, KeyLe(), EerLe(), pool);
    DropLastFourMap(NameOf, RankedRecords(pool));
    var victims := RecordVictims(pool);
    RecordVictimsInPool(pool);
    WithoutNames(pool, victims, pool + [rec]);
    var pruned := Without(pool, victims);
    assert NameDetermines(pruned + [rec]) by {
      forall a | a in pruned + [rec] ensures a in pool + [rec] {
      }
    }
    AddFileName(pruned, rec);
  }

  /** Every record the pass ranked by metric removes is in the pool. */
  lemma RecordVictimsInPool(pool: seq<BestRecord>)
    ensures forall v :: v in RecordVictims(pool) ==> v in pool
  {
    var s := RankedRecords(pool);
    forall v | v in RecordVictims(pool) ensures v in pool {
      assert v in s;
      assert v in multiset(s);
    }
  }
}
