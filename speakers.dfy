/**
 * The speaker/utterance index built once at start-up (train.py): the
 * per-speaker file lists of `create_dict`, the sorted distinct speaker ids,
 * the dense label map `spk_index` and its use on a batch of speaker ids.
 */
module Speakers {
  import opened Wrappers
  import opened Collections

  type SpeakerId = int
  type FileName = string

  /** What `create_dict` raises: a label with no entry, or a row past the file column. */
  datatype DictError = KeyError(key: SpeakerId) | IndexError(index: nat)

  /** Why start-up stops before training: the feature catalogue is empty. */
  datatype StartupError = NoFeatures

  predicate StrictlyIncreasing(s: seq<int>) {
    forall i, j :: 0 <= i < j < |s| ==> s[i] < s[j]
  }

  // ---------------------------------------------------------------------------
  // create_dict

  /** The files of the first `n` catalogue rows whose label is `spk`, in row order. */
  function FilesOf(files: seq<FileName>, labels: seq<SpeakerId>, spk: SpeakerId, n: nat): (r: seq<FileName>)
    requires n <= |labels| && n <= |files|
    ensures |r| == multiset(labels[..n])[spk]
    ensures forall k :: 0 <= k < |r| ==> exists j :: 0 <= j < n && labels[j] == spk && files[j] == r[k]
  {
    if n == 0 then []
    else
      assert labels[..n] == labels[..n - 1] + [labels[n - 1]];
      FilesOf(files, labels, spk, n - 1) + (if labels[n - 1] == spk then [files[n - 1]] else [])
  }

  /** The speakers of `spkUniq` named by at least two labels, in `spkUniq` order. */
  function KeptSpeakers(labels: seq<SpeakerId>, spkUniq: seq<SpeakerId>): seq<SpeakerId>
    decreases |spkUniq|
  {
    if |spkUniq| == 0 then []
    else
      var spk := spkUniq[|spkUniq| - 1];
      var rest := KeptSpeakers(labels, spkUniq[..|spkUniq| - 1]);
      if multiset(labels)[spk] >= 2 then rest + [spk] else rest
  }

  /** A speaker is kept exactly when it is listed and at least two labels name it. */
  lemma {:induction false} KeptSpeakersMembers(labels: seq<SpeakerId>, spkUniq: seq<SpeakerId>, s: SpeakerId)
    ensures s in KeptSpeakers(labels, spkUniq) <==> s in spkUniq && multiset(labels)[s] >= 2
    decreases |spkUniq|
  {
    if |spkUniq| > 0 {
      var init := spkUniq[..|spkUniq| - 1];
      KeptSpeakersMembers(labels, init, s);
      assert spkUniq == init + [spkUniq[|spkUniq| - 1]];
    }
  }

  /** Keeping a sub-list of a duplicate-free list leaves it duplicate-free. */
  lemma {:induction false} KeptSpeakersDistinct(labels: seq<SpeakerId>, spkUniq: seq<SpeakerId>)
    requires Distinct(spkUniq)
    ensures Distinct(KeptSpeakers(labels, spkUniq))
    decreases |spkUniq|
  {
    if |spkUniq| > 0 {
      var init := spkUniq[..|spkUniq| - 1];
      var spk := spkUniq[|spkUniq| - 1];
      KeptSpeakersDistinct(labels, init);
      KeptSpeakersMembers(labels, init, spk);
      assert spk !in init;
    }
  }

  /** Python's `dict.pop` on the key order: drop every occurrence of `k`. */
  function RemoveKey(keys: seq<SpeakerId>, k: SpeakerId): (r: seq<SpeakerId>)
    ensures forall x :: x in r <==> x in keys && x != k
  {
    if |keys| == 0 then []
    else if keys[0] == k then RemoveKey(keys[1..], k)
    else [keys[0]] + RemoveKey(keys[1..], k)
  }

  lemma {:induction false} RemoveKeyAbsent(keys: seq<SpeakerId>, k: SpeakerId)
    requires k !in keys
    ensures RemoveKey(keys, k) == keys
  {
    if |keys| > 0 {
      RemoveKeyAbsent(keys[1..], k);
      assert keys == [keys[0]] + keys[1..];
    }
  }

  lemma {:induction false} RemoveKeyMiddle(front: seq<SpeakerId>, k: SpeakerId, back: seq<SpeakerId>)
    requires k !in front && k !in back
    ensures RemoveKey(front + [k] + back, k) == front + back
  {
    if |front| == 0 {
      assert front + [k] + back == [k] + back;
      RemoveKeyAbsent(back, k);
    } else {
      RemoveKeyMiddle(front[1..], k, back);
      assert (front + [k] + back)[1..] == front[1..] + [k] + back;
      assert front + back == [front[0]] + (front[1..] + back);
    }
  }

  predicate RowOk(files: seq<FileName>, labels: seq<SpeakerId>, spkUniq: seq<SpeakerId>, j: nat)
    requires j < |labels|
  {
    labels[j] in spkUniq && j < |files|
  }

  /** The first row, from `i` on, that `create_dict` cannot file (|labels| when there is none). */
  function FirstBadRow(files: seq<FileName>, labels: seq<SpeakerId>, spkUniq: seq<SpeakerId>, i: nat): (k: nat)
    requires i <= |labels|
    ensures i <= k <= |labels|
    ensures forall j :: i <= j < k ==> RowOk(files, labels, spkUniq, j)
    ensures k < |labels| ==> !RowOk(files, labels, spkUniq, k)
    decreases |labels| - i
  {
    if i == |labels| || !RowOk(files, labels, spkUniq, i) then i
    else FirstBadRow(files, labels, spkUniq, i + 1)
  }

  /** A row every earlier row of which is fine, and which is not, is the first bad row. */
  lemma {:induction false} FirstBadRowAt(files: seq<FileName>, labels: seq<SpeakerId>, spkUniq: seq<SpeakerId>, i: nat, k: nat)
    requires i <= k < |labels|
    requires forall j :: i <= j < k ==> RowOk(files, labels, spkUniq, j)
    requires !RowOk(files, labels, spkUniq, k)
    ensures FirstBadRow(files, labels, spkUniq, i) == k
    decreases k - i
  {
    if i < k {
      FirstBadRowAt(files, labels, spkUniq, i + 1, k);
    }
  }

  /** The key order before and after `create_dict`'s third loop visits `spkUniq[i]`. */
  lemma KeysAfterVisit(labels: seq<SpeakerId>, spkUniq: seq<SpeakerId>, i: nat)
    requires Distinct(spkUniq) && i < |spkUniq|
    ensures var spk, keys := spkUniq[i], KeptSpeakers(labels, spkUniq[..i]) + spkUniq[i..];
      KeptSpeakers(labels, spkUniq[..i + 1]) + spkUniq[i + 1..]
        == if multiset(labels)[spk] < 2 then RemoveKey(keys, spk) else keys
  {
    var spk := spkUniq[i];
    var front := KeptSpeakers(labels, spkUniq[..i]);
    assert spkUniq[..i + 1][..i] == spkUniq[..i];
    assert spkUniq[i..] == [spk] + spkUniq[i + 1..];
    if multiset(labels)[spk] < 2 {
      assert KeptSpeakers(labels, spkUniq[..i + 1]) == front;
      KeptSpeakersMembers(labels, spkUniq[..i], spk);
      assert spk !in spkUniq[i + 1..];
      assert front + spkUniq[i..] == front + [spk] + spkUniq[i + 1..];
      RemoveKeyMiddle(front, spk, spkUniq[i + 1..]);
    } else {
      assert KeptSpeakers(labels, spkUniq[..i + 1]) == front + [spk];
    }
  }

  /**
   * `create_dict`: one empty list per listed speaker, each catalogue row's
   * file appended to its speaker's list, then every speaker with fewer than
   * two files popped. Returns the dict and its keys in insertion order.
   */
  method CreateDict(files: seq<FileName>, labels: seq<SpeakerId>, spkUniq: seq<SpeakerId>)
    returns (r: Result<(map<SpeakerId, seq<FileName>>, seq<SpeakerId>), DictError>)
    requires Distinct(spkUniq)
    ensures var k := FirstBadRow(files, labels, spkUniq, 0);
      k < |labels| ==> r == Err(if labels[k] !in spkUniq then KeyError(labels[k]) else IndexError(k))
    ensures r.Ok? <==> forall j :: 0 <= j < |labels| ==> RowOk(files, labels, spkUniq, j)
    ensures r.Ok? ==> |labels| <= |files|
    ensures r.Ok? ==> var (dict, unique) := r.value;
      && unique == KeptSpeakers(labels, spkUniq)
      && (forall s :: s in dict <==> s in unique)
      && (forall s :: s in dict ==> |dict[s]| >= 2 && dict[s] == FilesOf(files, labels, s, |labels|))
      && (forall s :: s in spkUniq ==> (s !in dict <==> multiset(labels)[s] < 2))
  {
    var dict, keys := NewSpeakerLists(spkUniq);
    var filled := FileRows(files, labels, spkUniq, dict);
    if filled.Err? {
      return Err(filled.error);
    }
    dict, keys := DropSmallSpeakers(files, labels, spkUniq, filled.value);
    forall s | s in spkUniq
      ensures s !in dict <==> multiset(labels)[s] < 2
    {
      KeptSpeakersMembers(labels, spkUniq, s);
    }
    assert labels[..|labels|] == labels;
    forall s | s in dict
      ensures |dict[s]| >= 2
    {
      KeptSpeakersMembers(labels, spkUniq, s);
      assert |FilesOf(files, labels, s, |labels|)| == multiset(labels)[s];
    }
    r := Ok((dict, keys));
  }

  /** First loop of `create_dict`: `train_dict[spk] = []` for each listed speaker. */
  method NewSpeakerLists(spkUniq: seq<SpeakerId>) returns (dict: map<SpeakerId, seq<FileName>>, keys: seq<SpeakerId>)
    requires Distinct(spkUniq)
    ensures keys == spkUniq
    ensures forall s :: s in dict <==> s in spkUniq
    ensures forall s :: s in dict ==> dict[s] == []
  {
    dict, keys := map[], [];
    for i := 0 to |spkUniq|
      invariant keys == spkUniq[..i]
      invariant forall s :: s in dict <==> s in keys
      invariant forall s :: s in dict ==> dict[s] == []
    {
      assert spkUniq[i] !in keys by {
        forall j | 0 <= j < i ensures keys[j] != spkUniq[i] {
          assert keys[j] == spkUniq[j];
        }
      }
      keys := keys + [spkUniq[i]];
      dict := dict[spkUniq[i] := []];
      assert keys == spkUniq[..i + 1];
    }
    assert spkUniq[..|spkUniq|] == spkUniq;
  }

  /** Second loop of `create_dict`: `train_dict[labels[i]].append(files[i])` row by row. */
  method FileRows(files: seq<FileName>, labels: seq<SpeakerId>, spkUniq: seq<SpeakerId>,
                  dict0: map<SpeakerId, seq<FileName>>)
    returns (r: Result<map<SpeakerId, seq<FileName>>, DictError>)
    requires forall s :: s in dict0 <==> s in spkUniq
    requires forall s :: s in dict0 ==> dict0[s] == []
    ensures var k := FirstBadRow(files, labels, spkUniq, 0);
      k < |labels| ==> r == Err(if labels[k] !in spkUniq then KeyError(labels[k]) else IndexError(k))
    ensures r.Ok? <==> forall j :: 0 <= j < |labels| ==> RowOk(files, labels, spkUniq, j)
    ensures r.Ok? ==> |labels| <= |files|
    ensures r.Ok? ==> (forall s :: s in r.value <==> s in spkUniq)
    ensures r.Ok? ==> forall s :: s in r.value ==> r.value[s] == FilesOf(files, labels, s, |labels|)
  {
    var dict := dict0;
    for i := 0 to |labels|
      invariant i <= |files|
      invariant forall j :: 0 <= j < i ==> RowOk(files, labels, spkUniq, j)
      invariant forall s :: s in dict <==> s in spkUniq
      invariant forall s :: s in dict ==> dict[s] == FilesOf(files, labels, s, i)
    {
      if labels[i] !in dict {
        assert !RowOk(files, labels, spkUniq, i);
        FirstBadRowAt(files, labels, spkUniq, 0, i);
        return Err(KeyError(labels[i]));
      }
      if i >= |files| {
        assert !RowOk(files, labels, spkUniq, i);
        FirstBadRowAt(files, labels, spkUniq, 0, i);
        return Err(IndexError(i));
      }
      assert RowOk(files, labels, spkUniq, i);
      dict := dict[labels[i] := dict[labels[i]] + [files[i]]];
    }
    r := Ok(dict);
  }

  /** Third loop of `create_dict`: pop every speaker with fewer than two files. */
  method DropSmallSpeakers(files: seq<FileName>, labels: seq<SpeakerId>, spkUniq: seq<SpeakerId>,
                           dict0: map<SpeakerId, seq<FileName>>)
    returns (dict: map<SpeakerId, seq<FileName>>, keys: seq<SpeakerId>)
    requires Distinct(spkUniq) && |labels| <= |files|
    requires forall s :: s in dict0 <==> s in spkUniq
    requires forall s :: s in dict0 ==> dict0[s] == FilesOf(files, labels, s, |labels|)
    ensures keys == KeptSpeakers(labels, spkUniq)
    ensures forall s :: s in dict <==> s in keys
    ensures forall s :: s in dict ==> dict[s] == FilesOf(files, labels, s, |labels|)
  {
    dict, keys := dict0, spkUniq;
    assert labels[..|labels|] == labels;
    for i := 0 to |spkUniq|
      invariant keys == KeptSpeakers(labels, spkUniq[..i]) + spkUniq[i..]
      invariant forall s :: s in dict <==> s in keys
      invariant forall s :: s in dict ==> dict[s] == FilesOf(files, labels, s, |labels|)
    {
      var spk := spkUniq[i];
      assert spk in keys;
      KeysAfterVisit(labels, spkUniq, i);
      if |dict[spk]| < 2 {
        dict := dict - {spk};
        keys := RemoveKey(keys, spk);
      }
    }
    assert spkUniq[..|spkUniq|] == spkUniq;
  }

  // ---------------------------------------------------------------------------
  // np.sort(libri['speaker_id'].unique())

  /** Insert `x` into a strictly increasing list, skipping it when already present. */
  function InsertUnique(x: int, u: seq<int>): (r: seq<int>)
    requires StrictlyIncreasing(u)
    ensures StrictlyIncreasing(r)
    ensures forall y :: y in r <==> y == x || y in u
    ensures |r| > 0 && (r[0] == x || (|u| > 0 && r[0] == u[0]))
  {
    if |u| == 0 then [x]
    else if x < u[0] then [x] + u
    else if x == u[0] then u
    else [u[0]] + InsertUnique(x, u[1..])
  }

  /** The distinct speaker ids of the catalogue in ascending order. */
  function SortedUnique(ids: seq<int>): (u: seq<int>)
    ensures StrictlyIncreasing(u)
    ensures forall y :: y in u <==> y in ids
  {
    if |ids| == 0 then []
    else
      assert ids == [ids[0]] + ids[1..];
      InsertUnique(ids[0], SortedUnique(ids[1..]))
  }

  // ---------------------------------------------------------------------------
  // spk_index = dict(zip(unique_speakers, range(len(unique_speakers))))

  /** `dict(zip(u, range(len(u))))`: each id to its position, a later duplicate winning. */
  function SpkIndex(u: seq<SpeakerId>): (m: map<SpeakerId, nat>)
    ensures forall s :: s in m <==> s in u
    ensures forall s :: s in m ==> m[s] < |u|
  {
    if |u| == 0 then map[]
    else SpkIndex(u[..|u| - 1])[u[|u| - 1] := |u| - 1]
  }

  /** On duplicate-free ids the label map sends the i-th id to i. */
  lemma {:induction false} SpkIndexPosition(u: seq<SpeakerId>, i: nat)
    requires Distinct(u) && i < |u|
    ensures SpkIndex(u)[u[i]] == i
  {
    var n := |u| - 1;
    if i < n {
      SpkIndexPosition(u[..n], i);
      assert u[i] != u[n];
    }
  }

  /** On duplicate-free ids the label map is a bijection onto 0 .. |u| - 1. */
  lemma SpkIndexBijective(u: seq<SpeakerId>)
    requires Distinct(u)
    ensures forall s, t :: s in SpkIndex(u) && t in SpkIndex(u) && SpkIndex(u)[s] == SpkIndex(u)[t] ==> s == t
    ensures forall i :: 0 <= i < |u| ==> u[i] in SpkIndex(u) && SpkIndex(u)[u[i]] == i
  {
    var m := SpkIndex(u);
    forall i | 0 <= i < |u|
      ensures u[i] in m && m[u[i]] == i
    {
      SpkIndexPosition(u, i);
    }
    forall s, t | s in m && t in m && m[s] == m[t]
      ensures s == t
    {
      var i :| 0 <= i < |u| && u[i] == s;
      var j :| 0 <= j < |u| && u[j] == t;
      SpkIndexPosition(u, i);
      SpkIndexPosition(u, j);
    }
  }

  /** `[spk_index[one_id] for one_id in y]`; the first id with no entry raises KeyError. */
  function LabelBatch(index: map<SpeakerId, nat>, y: seq<SpeakerId>): (r: Result<seq<nat>, DictError>)
    ensures r.Ok? <==> forall i :: 0 <= i < |y| ==> y[i] in index
    ensures r.Ok? ==> |r.value| == |y| && forall i :: 0 <= i < |y| ==> r.value[i] == index[y[i]]
    ensures r.Err? ==> exists k :: 0 <= k < |y| && y[k] !in index && r.error == KeyError(y[k])
                                  && forall j :: 0 <= j < k ==> y[j] in index
  {
    if |y| == 0 then Ok([])
    else if y[0] !in index then Err(KeyError(y[0]))
    else match LabelBatch(index, y[1..])
      case Err(e) => Err(e)
      case Ok(rest) => Ok([index[y[0]]] + rest)
  }

  /**
   * The integer labels of a batch decode back to its speaker ids through
   * the sorted id list, and every label lies in 0 .. |u| - 1.
   */
  lemma {:induction false} LabelBatchDecodes(u: seq<SpeakerId>, y: seq<SpeakerId>)
    requires Distinct(u)
    requires forall i :: 0 <= i < |y| ==> y[i] in u
    ensures LabelBatch(SpkIndex(u), y).Ok?
    ensures var labels := LabelBatch(SpkIndex(u), y).value;
      forall i :: 0 <= i < |y| ==> labels[i] < |u| && u[labels[i]] == y[i]
  {
    if |y| > 0 {
      LabelBatchDecodes(u, y[1..]);
      SpkIndexBijective(u);
      var labels := LabelBatch(SpkIndex(u), y).value;
      assert labels[1..] == LabelBatch(SpkIndex(u), y[1..]).value;
      var j :| 0 <= j < |u| && u[j] == y[0];
      assert labels[0] == j;
    }
  }

  // ---------------------------------------------------------------------------
  // Start-up: train.py lines 53-70

  datatype TrainIndex = TrainIndex(
    allSpeakers: seq<SpeakerId>,            // np.sort(unique(speaker_id))
    spkIndex: map<SpeakerId, nat>,          // the label of every sorted speaker, kept or not
    spkUttDict: map<SpeakerId, seq<FileName>>,
    uniqueSpeakers: seq<SpeakerId>)         // the kept speakers; len() is the class count

  /**
   * Start-up on a feature catalogue given as its two columns: an empty
   * catalogue is fatal; otherwise the sorted distinct ids, the label map
   * built over all of them (each id labelled by its sorted position) and
   * the filtered per-speaker index. The map is built before the filtering,
   * so its labels lie below the number of sorted ids, not below the class
   * count len(unique_speakers) (see `LabelCanReachClassCount`).
   */
  method BuildIndex(files: seq<FileName>, ids: seq<SpeakerId>) returns (r: Result<TrainIndex, StartupError>)
    requires |files| == |ids|
    ensures r.Err? <==> |ids| == 0
    ensures r.Ok? ==>
      && r.value.allSpeakers == SortedUnique(ids)
      && r.value.spkIndex == SpkIndex(r.value.allSpeakers)
      && (forall s :: s in r.value.spkIndex <==> s in ids)
      && (forall i :: 0 <= i < |r.value.allSpeakers| ==> r.value.spkIndex[r.value.allSpeakers[i]] == i)
      && r.value.uniqueSpeakers == KeptSpeakers(ids, SortedUnique(ids))
      && (forall s :: s in r.value.spkUttDict ==> s in r.value.spkIndex)
      && (forall s :: s in r.value.spkUttDict ==>
            |r.value.spkUttDict[s]| >= 2 && r.value.spkUttDict[s] == FilesOf(files, ids, s, |ids|))
      && (forall s :: s in r.value.spkUttDict <==> s in ids && multiset(ids)[s] >= 2)
  {
    if |ids| == 0 {
      return Err(NoFeatures);
    }
    var all := SortedUnique(ids);
    var index := SpkIndex(all);
    SpkIndexBijective(all);
    var d := CreateDict(files, ids, all);
    if d.Err? {
      assert false;
    }
    var (dict, unique) := d.value;
    forall s ensures s in dict <==> s in ids && multiset(ids)[s] >= 2 {
      KeptSpeakersMembers(ids, all, s);
    }
    r := Ok(TrainIndex(all, index, dict, unique));
  }

  // ---------------------------------------------------------------------------
  // The label range of the kept speakers

  /**
   * As written, the label map is built before the filtering, so a kept
   * speaker can get a label equal to the class count len(unique_speakers):
   * ids [1, 2, 2] keep only speaker 2, whose label is 1 with one class.
   */
  lemma LabelCanReachClassCount()
    ensures var ids := [1, 2, 2];
      var all := SortedUnique(ids);
      var kept := KeptSpeakers(ids, all);
      kept == [2] && 2 in SpkIndex(all) && SpkIndex(all)[2] >= |kept|
  {
    var ids := [1, 2, 2];
    SortedUniqueOfExample();
    KeptOfExample();
    SpkIndexPosition([1, 2], 1);
  }

  lemma SortedUniqueOfExample()
    ensures SortedUnique([1, 2, 2]) == [1, 2]
  {
    assert SortedUnique([2]) == [2];
    assert [2, 2][1..] == [2];
    assert SortedUnique([2, 2]) == [2];
    assert [1, 2, 2][1..] == [2, 2];
  }

  lemma KeptOfExample()
    ensures KeptSpeakers([1, 2, 2], [1, 2]) == [2]
  {
    var ids := [1, 2, 2];
    assert multiset(ids)[1] == 1 && multiset(ids)[2] == 2;
    assert [1, 2][..1] == [1] && [1][..0] == [];
    assert KeptSpeakers(ids, [1]) == [];
  }

  /**
   * The label map the class count calls for: built from the kept speakers,
   * so every kept speaker has a label below len(unique_speakers) and
   * distinct kept speakers have distinct labels.
   */
  function KeptSpkIndex(ids: seq<SpeakerId>): (m: map<SpeakerId, nat>)
    ensures forall s :: s in m <==> s in ids && multiset(ids)[s] >= 2
    ensures forall s :: s in m ==> m[s] < |KeptSpeakers(ids, SortedUnique(ids))|
    ensures forall s, t :: s in m && t in m && m[s] == m[t] ==> s == t
  {
    var all := SortedUnique(ids);
    var kept := KeptSpeakers(ids, all);
    assert forall s :: s in kept <==> s in ids && multiset(ids)[s] >= 2 by {
      forall s ensures s in kept <==> s in ids && multiset(ids)[s] >= 2 {
        KeptSpeakersMembers(ids, all, s);
      }
    }
    KeptSpeakersDistinct(ids, all);
    SpkIndexBijective(kept);
    SpkIndex(kept)
  }

  /**
   * With the label map over the kept speakers, a batch drawn from kept
   * speakers maps to labels that all lie below the class count.
   */
  lemma {:induction false} KeptLabelsBelowClassCount(ids: seq<SpeakerId>, y: seq<SpeakerId>)
    requires forall i :: 0 <= i < |y| ==> y[i] in ids && multiset(ids)[y[i]] >= 2
    ensures LabelBatch(KeptSpkIndex(ids), y).Ok?
    ensures forall i :: 0 <= i < |y| ==>
      LabelBatch(KeptSpkIndex(ids), y).value[i] < |KeptSpeakers(ids, SortedUnique(ids))|
  {
    if |y| > 0 {
      KeptLabelsBelowClassCount(ids, y[1..]);
      var labels := LabelBatch(KeptSpkIndex(ids), y).value;
      assert labels[1..] == LabelBatch(KeptSpkIndex(ids), y[1..]).value;
    }
  }
}
