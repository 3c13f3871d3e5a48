/**
 * CL4SRec sequence augmentations (model.py, CL4SRec.item_crop, item_mask,
 * item_reorder and augment) on left-padded item rows of length T.
 *
 * Every random draw is a parameter. The amounts floor(len * 0.6) and
 * floor(len * 0.3) are parameters too, since the source computes them in
 * floating point; they are only required to lie in [0, len], the first being
 * at least 1 once len >= 2, which any rounding of len * 0.6 satisfies.
 */
module Augment {

  /**
   * numpy fancy assignment `a[at] = vals` on a copy of `base`, written as one
   * write after another. numpy fixes no order for repeated indices; every use
   * here is order-independent: item_mask writes the single constant 0
   * (ScatterConstant) and item_reorder's indices are distinct (ScatterAt).
   */
  function Scatter(base: seq<int>, at: seq<int>, vals: seq<int>): (r: seq<int>)
    requires |at| == |vals|
    requires forall j :: 0 <= j < |at| ==> 0 <= at[j] < |base|
    ensures |r| == |base|
    decreases |at|
  {
    if at == [] then base
    else Scatter(base, at[..|at| - 1], vals[..|vals| - 1])[at[|at| - 1] := vals[|vals| - 1]]
  }

  /** A slot no index names keeps its value. */
  lemma {:induction false} ScatterOutside(base: seq<int>, at: seq<int>, vals: seq<int>, k: int)
    requires |at| == |vals|
    requires forall j :: 0 <= j < |at| ==> 0 <= at[j] < |base|
    requires 0 <= k < |base| && k !in at
    ensures Scatter(base, at, vals)[k] == base[k]
    decreases |at|
  {
    if at != [] {
      assert k !in at[..|at| - 1];
      ScatterOutside(base, at[..|at| - 1], vals[..|vals| - 1], k);
    }
  }

  /** With distinct indices, slot at[j] receives vals[j]. */
  lemma {:induction false} ScatterAt(base: seq<int>, at: seq<int>, vals: seq<int>, j: int)
    requires |at| == |vals|
    requires forall i :: 0 <= i < |at| ==> 0 <= at[i] < |base|
    requires forall i, i' :: 0 <= i < i' < |at| ==> at[i] != at[i']
    requires 0 <= j < |at|
    ensures Scatter(base, at, vals)[at[j]] == vals[j]
    decreases |at|
  {
    if j < |at| - 1 {
      ScatterAt(base, at[..|at| - 1], vals[..|vals| - 1], j);
    }
  }

  /** Writing one constant: a slot is that constant exactly when some index names it. */
  lemma {:induction false} ScatterConstant(base: seq<int>, at: seq<int>, c: int, k: int)
    requires forall j :: 0 <= j < |at| ==> 0 <= at[j] < |base|
    requires 0 <= k < |base|
    ensures Scatter(base, at, seq(|at|, _ => c))[k] == if k in at then c else base[k]
    decreases |at|
  {
    if at != [] {
      var n := |at|;
      assert seq(n, _ => c)[..n - 1] == seq(n - 1, _ => c);
      ScatterConstant(base, at[..n - 1], c, k);
      assert at == at[..n - 1] + [at[n - 1]];
      assert k in at <==> k in at[..n - 1] || k == at[n - 1];
    }
  }

  /** The fancy assignment done in place, one index at a time. */
  method ScatterInPlace(a: array<int>, at: seq<int>, vals: seq<int>)
    requires |at| == |vals|
    requires forall j :: 0 <= j < |at| ==> 0 <= at[j] < a.Length
    modifies a
    ensures a[..] == Scatter(old(a[..]), at, vals)
  {
    ghost var base := a[..];
    var j := 0;
    while j < |at|
      invariant j <= |at|
      invariant a[..] == Scatter(base, at[..j], vals[..j])
    {
      assert at[..j + 1][..j] == at[..j] && vals[..j + 1][..j] == vals[..j];
      a[at[j]] := vals[j];
      j := j + 1;
    }
    assert at[..j] == at && vals[..j] == vals;
  }

  /** A row whose last `len` slots hold items and whose earlier slots are padding. */
  predicate LeftPadded(s: seq<int>, len: int)
  {
    0 <= len <= |s| &&
    (forall k :: 0 <= k < |s| - len ==> s[k] == 0) &&
    (forall k :: |s| - len <= k < |s| ==> s[k] != 0)
  }

  // ---------------------------------------------------------------- crop

  /**
   * item_crop: keeps `numLeft` consecutive items ending `cropBegin` slots before
   * the end, right-aligned in a zero row; short histories are returned unchanged.
   */
  function Cropped(s: seq<int>, len: nat, numLeft: nat, cropBegin: int): (r: seq<int>)
    requires len <= |s| && numLeft <= len
    requires len - numLeft > 1 ==> 1 <= numLeft && 1 <= cropBegin <= len - numLeft
    ensures |r| == |s|
    ensures len - numLeft <= 1 ==> r == s
    ensures len - numLeft > 1 ==> (forall k :: 0 <= k < |s| - numLeft ==> r[k] == 0)
    ensures len - numLeft > 1 ==> r[|s| - numLeft..] == s[|s| - numLeft - cropBegin..|s| - cropBegin]
  {
    if len - numLeft <= 1 then s
    else
      var T := |s|;
      var r := seq(T, k requires 0 <= k < T => if k < T - numLeft then 0 else s[k - cropBegin]);
      var kept, source := r[T - numLeft..], s[T - numLeft - cropBegin..T - cropBegin];
      assert forall j :: 0 <= j < numLeft ==> kept[j] == source[j];
      r
  }

  method ItemCrop(s: seq<int>, len: nat, numLeft: nat, cropBegin: int) returns (r: seq<int>)
    requires len <= |s| && numLeft <= len
    requires len - numLeft > 1 ==> 1 <= numLeft && 1 <= cropBegin <= len - numLeft
    ensures r == Cropped(s, len, numLeft, cropBegin)
  {
    if len - numLeft <= 1 {
      return s;
    }
    var T := |s|;
    var a := new int[T](_ => 0);
    var j := 0;
    while j < numLeft
      invariant j <= numLeft
      invariant forall k :: 0 <= k < T ==> a[k] == if T - numLeft <= k < T - numLeft + j then s[k - cropBegin] else 0
    {
      a[T - numLeft + j] := s[T - numLeft - cropBegin + j];
      j := j + 1;
    }
    r := a[..];
  }

  /**
   * The kept window lies inside the real history and never contains its most
   * recent item; a left-padded row stays left-padded, with `numLeft` items.
   */
  lemma CropKeepsHistoryWindow(s: seq<int>, len: nat, numLeft: nat, cropBegin: int)
    requires LeftPadded(s, len) && numLeft <= len
    requires len - numLeft > 1 && 1 <= numLeft && 1 <= cropBegin <= len - numLeft
    ensures |s| - len <= |s| - numLeft - cropBegin && |s| - cropBegin <= |s| - 1
    ensures LeftPadded(Cropped(s, len, numLeft, cropBegin), numLeft)
  {
    var T := |s|;
    var r := Cropped(s, len, numLeft, cropBegin);
    forall k | T - numLeft <= k < T ensures r[k] != 0 {
      assert r[k] == r[T - numLeft..][k - (T - numLeft)];
    }
  }

  // ---------------------------------------------------------------- mask

  /** The slots `-mask_index` names: T - idx for each drawn idx. */
  function MaskSlots(T: int, maskIndex: seq<int>): (at: seq<int>)
    ensures |at| == |maskIndex|
  {
    seq(|maskIndex|, j requires 0 <= j < |maskIndex| => T - maskIndex[j])
  }

  predicate ValidMaskIndex(len: nat, numMask: nat, maskIndex: seq<int>)
  {
    |maskIndex| == numMask && forall j :: 0 <= j < |maskIndex| ==> 1 <= maskIndex[j] <= len
  }

  /** item_mask: `masked[-mask_index] = 0` on a copy. */
  function Masked(s: seq<int>, len: nat, numMask: nat, maskIndex: seq<int>): (r: seq<int>)
    requires len <= |s| && ValidMaskIndex(len, numMask, maskIndex)
  {
    Scatter(s, MaskSlots(|s|, maskIndex), seq(numMask, _ => 0))
  }

  method ItemMask(s: seq<int>, len: nat, numMask: nat, maskIndex: seq<int>) returns (r: seq<int>)
    requires len <= |s| && ValidMaskIndex(len, numMask, maskIndex)
    ensures r == Masked(s, len, numMask, maskIndex)
  {
    var a := new int[|s|](k requires 0 <= k < |s| => s[k]);
    assert a[..] == s;
    ScatterInPlace(a, MaskSlots(|s|, maskIndex), seq(numMask, _ => 0));
    r := a[..];
  }

  /**
   * The row keeps its length; a slot becomes 0 exactly when a drawn index names
   * it, every such slot lies in the last `len` positions, and all others keep
   * their item.
   */
  lemma MaskedAt(s: seq<int>, len: nat, numMask: nat, maskIndex: seq<int>, k: int)
    requires len <= |s| && ValidMaskIndex(len, numMask, maskIndex)
    requires 0 <= k < |s|
    ensures |Masked(s, len, numMask, maskIndex)| == |s|
    ensures Masked(s, len, numMask, maskIndex)[k] == if k in MaskSlots(|s|, maskIndex) then 0 else s[k]
    ensures k in MaskSlots(|s|, maskIndex) ==> |s| - len <= k
  {
    ScatterConstant(s, MaskSlots(|s|, maskIndex), 0, k);
  }

  // ---------------------------------------------------------------- reorder

  /** `shuffle_index`: a shuffle of arange(lo, hi), distinct values in [lo, hi). */
  predicate IsShuffleOf(shuffle: seq<int>, lo: int, hi: int)
  {
    |shuffle| == hi - lo &&
    (forall j :: 0 <= j < |shuffle| ==> lo <= shuffle[j] < hi) &&
    (forall i, j :: 0 <= i < j < |shuffle| ==> shuffle[i] != shuffle[j])
  }

  /** Negative numpy indices made absolute for a row of length T. */
  function Absolute(T: int, shuffle: seq<int>): (at: seq<int>)
    ensures |at| == |shuffle|
  {
    seq(|shuffle|, j requires 0 <= j < |shuffle| => T + shuffle[j])
  }

  /**
   * item_reorder: the window of `numReorder` items ending `begin` slots before the
   * end is written back through the shuffled indices; short histories are
   * returned unchanged.
   */
  function Reordered(s: seq<int>, len: nat, numReorder: nat, begin: int, shuffle: seq<int>): (r: seq<int>)
    requires len <= |s| && numReorder <= len
    requires len - numReorder > 1 ==> 1 <= begin < len - numReorder && IsShuffleOf(shuffle, -begin - numReorder, -begin)
    ensures |r| == |s|
  {
    if len - numReorder <= 1 then s
    else
      var T := |s|;
      Scatter(s, Absolute(T, shuffle), s[T - begin - numReorder..T - begin])
  }

  method ItemReorder(s: seq<int>, len: nat, numReorder: nat, begin: int, shuffle: seq<int>) returns (r: seq<int>)
    requires len <= |s| && numReorder <= len
    requires len - numReorder > 1 ==> 1 <= begin < len - numReorder && IsShuffleOf(shuffle, -begin - numReorder, -begin)
    ensures r == Reordered(s, len, numReorder, begin, shuffle)
  {
    if len - numReorder <= 1 {
      return s;
    }
    var T := |s|;
    var a := new int[T](k requires 0 <= k < T => s[k]);
    assert a[..] == s;
    ScatterInPlace(a, Absolute(T, shuffle), s[T - begin - numReorder..T - begin]);
    r := a[..];
  }

  /** Writing w through distinct indices into a same-sized row permutes w. */
  lemma {:induction false} PermutedMultiset(w: seq<int>, w2: seq<int>, perm: seq<int>)
    requires |w| == |w2| == |perm|
    requires forall j :: 0 <= j < |perm| ==> 0 <= perm[j] < |perm|
    requires forall i, j :: 0 <= i < j < |perm| ==> perm[i] != perm[j]
    requires forall j :: 0 <= j < |perm| ==> w2[perm[j]] == w[j]
    ensures multiset(w) == multiset(w2)
  {
    if |w| > 0 {
      var n := |w|;
      var p := perm[n - 1];
      var rest := w2[..p] + w2[p + 1..];
      var perm' := seq(n - 1, j requires 0 <= j < n - 1 => if perm[j] < p then perm[j] else perm[j] - 1);
      forall j | 0 <= j < n - 1
        ensures 0 <= perm'[j] < n - 1 && rest[perm'[j]] == w[j]
      {
        assert perm[j] != p;
      }
      PermutedMultiset(w[..n - 1], rest, perm');
      assert w == w[..n - 1] + [w[n - 1]];
      assert w2 == w2[..p] + [w2[p]] + w2[p + 1..];
    }
  }

  /** Indices that name every slot of the window [lo, lo+n) exactly once. */
  predicate WindowIndices(at: seq<int>, lo: int, n: int)
  {
    |at| == n &&
    (forall j :: 0 <= j < |at| ==> lo <= at[j] < lo + n) &&
    (forall i, j :: 0 <= i < j < |at| ==> at[i] != at[j])
  }

  /** Outside the window the scattered row equals the base row. */
  lemma ScatterKeepsOutside(base: seq<int>, at: seq<int>, vals: seq<int>, lo: int, n: int)
    requires 0 <= lo && lo + n <= |base| && WindowIndices(at, lo, n) && |vals| == n
    ensures Scatter(base, at, vals)[..lo] == base[..lo]
    ensures Scatter(base, at, vals)[lo + n..] == base[lo + n..]
  {
    var r := Scatter(base, at, vals);
    forall k | 0 <= k < lo ensures r[k] == base[k] {
      ScatterOutside(base, at, vals, k);
    }
    forall k | lo + n <= k < |base| ensures r[k] == base[k] {
      ScatterOutside(base, at, vals, k);
    }
  }

  /** A row whose window slot at[j] holds vals[j], for distinct window indices, holds a permutation of vals there. */
  lemma WindowPermuted(r: seq<int>, at: seq<int>, vals: seq<int>, lo: int, n: int)
    requires 0 <= lo && lo + n <= |r| && WindowIndices(at, lo, n) && |vals| == n
    requires forall j :: 0 <= j < n ==> r[at[j]] == vals[j]
    ensures multiset(r[lo..lo + n]) == multiset(vals)
  {
    var window := r[lo..lo + n];
    var perm := seq(n, j requires 0 <= j < n => at[j] - lo);
    forall j | 0 <= j < n ensures window[perm[j]] == vals[j] {
      assert window[perm[j]] == r[at[j]];
    }
    PermutedMultiset(vals, window, perm);
  }

  /** Inside the window the scattered row holds a permutation of `vals`. */
  lemma ScatterWindowHoldsVals(base: seq<int>, at: seq<int>, vals: seq<int>, lo: int, n: int)
    requires 0 <= lo && lo + n <= |base| && WindowIndices(at, lo, n) && |vals| == n
    ensures multiset(Scatter(base, at, vals)[lo..lo + n]) == multiset(vals)
  {
    var r := Scatter(base, at, vals);
    forall j | 0 <= j < n ensures r[at[j]] == vals[j] {
      ScatterAt(base, at, vals, j);
    }
    WindowPermuted(r, at, vals, lo, n);
  }

  /** Scattering a window's own items back into it through distinct indices permutes the row. */
  lemma ScatterWindowPermutes(base: seq<int>, at: seq<int>, lo: int, n: int)
    requires 0 <= lo && lo + n <= |base| && WindowIndices(at, lo, n)
    ensures multiset(Scatter(base, at, base[lo..lo + n])) == multiset(base)
  {
    var vals := base[lo..lo + n];
    ScatterKeepsOutside(base, at, vals, lo, n);
    ScatterWindowHoldsVals(base, at, vals, lo, n);
    SpliceMultiset(Scatter(base, at, vals), base, lo, n);
  }

  /** Rows that agree outside a window and hold the same multiset inside it are permutations of each other. */
  lemma SpliceMultiset(r: seq<int>, base: seq<int>, lo: int, n: int)
    requires 0 <= lo && 0 <= n && lo + n <= |base| == |r|
    requires r[..lo] == base[..lo] && r[lo + n..] == base[lo + n..]
    requires multiset(r[lo..lo + n]) == multiset(base[lo..lo + n])
    ensures multiset(r) == multiset(base)
  {
    assert r == r[..lo] + r[lo..lo + n] + r[lo + n..];
    assert base == base[..lo] + base[lo..lo + n] + base[lo + n..];
  }

  /**
   * Reordering touches only the window [T-begin-numReorder, T-begin), which lies
   * inside the history, moves item j of the window to the slot its shuffled
   * index names, and yields a permutation of the row.
   */
  lemma ReorderedPermutesWindow(s: seq<int>, len: nat, numReorder: nat, begin: int, shuffle: seq<int>)
    requires len <= |s| && numReorder <= len
    requires len - numReorder > 1 && 1 <= begin < len - numReorder && IsShuffleOf(shuffle, -begin - numReorder, -begin)
    ensures |s| - len < |s| - begin - numReorder
    ensures PermutesWindow(Reordered(s, len, numReorder, begin, shuffle), s, |s| - begin - numReorder, numReorder, Absolute(|s|, shuffle))
  {
    var T := |s|;
    var lo := T - begin - numReorder;
    var at := Absolute(T, shuffle);
    ShuffleNamesWindow(T, shuffle, lo, numReorder);
    assert Reordered(s, len, numReorder, begin, shuffle) == Scatter(s, at, s[lo..lo + numReorder]);
    ScatterWindowFacts(s, at, lo, numReorder);
  }

  /**
   * r differs from s only inside the window [lo, lo + n), slot at[j] of r holds
   * item j of the window of s, and r is a permutation of s.
   */
  predicate PermutesWindow(r: seq<int>, s: seq<int>, lo: int, n: int, at: seq<int>)
  {
    && |r| == |s| && |at| == n
    && (forall k :: 0 <= k < |s| && !(lo <= k < lo + n) ==> r[k] == s[k])
    && (forall j :: 0 <= j < n ==> 0 <= at[j] < |r| && 0 <= lo + j < |s| && r[at[j]] == s[lo + j])
    && multiset(r) == multiset(s)
  }

  /** A shuffle of [lo - T, lo - T + n), made absolute, names every slot of [lo, lo + n) once. */
  lemma ShuffleNamesWindow(T: int, shuffle: seq<int>, lo: int, n: int)
    requires IsShuffleOf(shuffle, lo - T, lo - T + n)
    ensures WindowIndices(Absolute(T, shuffle), lo, n)
    ensures forall j :: 0 <= j < n ==> Absolute(T, shuffle)[j] == T + shuffle[j]
  {
  }

  /** Scattering a window's own items back through window indices: the three facts the reorder promises. */
  lemma ScatterWindowFacts(base: seq<int>, at: seq<int>, lo: int, n: int)
    requires 0 <= lo && lo + n <= |base| && WindowIndices(at, lo, n)
    ensures PermutesWindow(Scatter(base, at, base[lo..lo + n]), base, lo, n, at)
  {
    ScatterWindowOutside(base, at, lo, n);
    ScatterWindowSlots(base, at, lo, n);
    ScatterWindowPermutes(base, at, lo, n);
  }

  lemma ScatterWindowOutside(base: seq<int>, at: seq<int>, lo: int, n: int)
    requires 0 <= lo && lo + n <= |base| && WindowIndices(at, lo, n)
    ensures forall k :: 0 <= k < |base| && !(lo <= k < lo + n) ==> Scatter(base, at, base[lo..lo + n])[k] == base[k]
  {
    forall k | 0 <= k < |base| && !(lo <= k < lo + n) ensures Scatter(base, at, base[lo..lo + n])[k] == base[k] {
      ScatterOutside(base, at, base[lo..lo + n], k);
    }
  }

  lemma ScatterWindowSlots(base: seq<int>, at: seq<int>, lo: int, n: int)
    requires 0 <= lo && lo + n <= |base| && WindowIndices(at, lo, n)
    ensures forall j :: 0 <= j < n ==> Scatter(base, at, base[lo..lo + n])[at[j]] == base[lo + j]
  {
    forall j | 0 <= j < n ensures Scatter(base, at, base[lo..lo + n])[at[j]] == base[lo + j] {
      ScatterAt(base, at, base[lo..lo + n], j);
    }
  }

  // ---------------------------------------------------------------- augment

  /** History length of a row with floor(len * 0.6) and floor(len * 0.3). */
  datatype Amounts = Amounts(len: nat, sixTenths: nat, threeTenths: nat)

  predicate ValidAmounts(s: seq<int>, a: Amounts)
  {
    a.len <= |s| && a.sixTenths <= a.len && a.threeTenths <= a.len && (a.len >= 2 ==> 1 <= a.sixTenths)
  }

  /** The random draws one augmentation call may consume. */
  datatype Draw = Draw(cropBegin: int, maskIndex: seq<int>, reorderBegin: int, shuffle: seq<int>)

  /**
   * The ranges the source draws from: random.randint(1, len - num_left) is
   * inclusive, np.random.randint(1, len + 1) and np.random.randint(1, len -
   * num_reorder) exclude their upper bound.
   */
  predicate ValidDraw(s: seq<int>, a: Amounts, d: Draw)
  {
    ValidAmounts(s, a) &&
    ValidMaskIndex(a.len, a.threeTenths, d.maskIndex) &&
    (a.len - a.sixTenths > 1 ==>
      && 1 <= d.cropBegin <= a.len - a.sixTenths
      && 1 <= d.reorderBegin < a.len - a.sixTenths
      && IsShuffleOf(d.shuffle, -d.reorderBegin - a.sixTenths, -d.reorderBegin))
  }

  /** Switch 0 crops, 1 masks, 2 reorders. */
  function Augmented(switch: int, s: seq<int>, a: Amounts, d: Draw): (r: seq<int>)
    requires 0 <= switch < 3 && ValidDraw(s, a, d)
  {
    if switch == 0 then Cropped(s, a.len, a.sixTenths, d.cropBegin)
    else if switch == 1 then Masked(s, a.len, a.threeTenths, d.maskIndex)
    else Reordered(s, a.len, a.sixTenths, d.reorderBegin, d.shuffle)
  }

  method ApplyAugmentation(switch: int, s: seq<int>, a: Amounts, d: Draw) returns (r: seq<int>)
    requires 0 <= switch < 3 && ValidDraw(s, a, d)
    ensures r == Augmented(switch, s, a, d)
  {
    if switch == 0 {
      r := ItemCrop(s, a.len, a.sixTenths, d.cropBegin);
    } else if switch == 1 {
      r := ItemMask(s, a.len, a.threeTenths, d.maskIndex);
    } else {
      r := ItemReorder(s, a.len, a.sixTenths, d.reorderBegin, d.shuffle);
    }
  }

  /**
   * Every augmentation keeps the row length, introduces no item that was not in
   * the row, and leaves the padding before the history as padding.
   */
  lemma AugmentedStaysWithinRow(switch: int, s: seq<int>, a: Amounts, d: Draw)
    requires 0 <= switch < 3 && ValidDraw(s, a, d)
    ensures StaysWithinRow(Augmented(switch, s, a, d), s, a.len)
  {
    if switch == 0 {
      CropStaysWithinRow(s, a, d);
    } else if switch == 1 {
      MaskStaysWithinRow(s, a, d);
    } else {
      ReorderStaysWithinRow(s, a, d);
    }
  }

  /** Same length, no item that was not in the row, and padding before the history stays padding. */
  predicate StaysWithinRow(r: seq<int>, s: seq<int>, len: nat)
  {
    && |r| == |s|
    && (forall k :: 0 <= k < |s| && r[k] != 0 ==> r[k] in s)
    && ((forall k :: 0 <= k < |s| - len ==> s[k] == 0) ==> forall k :: 0 <= k < |s| - len ==> r[k] == 0)
  }

  lemma CropStaysWithinRow(s: seq<int>, a: Amounts, d: Draw)
    requires ValidDraw(s, a, d)
    ensures StaysWithinRow(Cropped(s, a.len, a.sixTenths, d.cropBegin), s, a.len)
  {
    var T := |s|;
    var r := Cropped(s, a.len, a.sixTenths, d.cropBegin);
    if a.len - a.sixTenths > 1 {
      var kept, source := r[T - a.sixTenths..], s[T - a.sixTenths - d.cropBegin..T - d.cropBegin];
      forall k | T - a.sixTenths <= k < T ensures r[k] == s[k - d.cropBegin] {
        assert r[k] == kept[k - (T - a.sixTenths)];
      }
    }
  }

  lemma MaskStaysWithinRow(s: seq<int>, a: Amounts, d: Draw)
    requires ValidDraw(s, a, d)
    ensures StaysWithinRow(Masked(s, a.len, a.threeTenths, d.maskIndex), s, a.len)
  {
    var T := |s|;
    var r := Masked(s, a.len, a.threeTenths, d.maskIndex);
    forall k | 0 <= k < T ensures r[k] == if k in MaskSlots(T, d.maskIndex) then 0 else s[k] {
      MaskedAt(s, a.len, a.threeTenths, d.maskIndex, k);
    }
    forall k | 0 <= k < T - a.len ensures k !in MaskSlots(T, d.maskIndex) {
      if k in MaskSlots(T, d.maskIndex) {
        MaskedAt(s, a.len, a.threeTenths, d.maskIndex, k);
      }
    }
  }

  lemma ReorderStaysWithinRow(s: seq<int>, a: Amounts, d: Draw)
    requires ValidDraw(s, a, d)
    ensures StaysWithinRow(Reordered(s, a.len, a.sixTenths, d.reorderBegin, d.shuffle), s, a.len)
  {
    var r := Reordered(s, a.len, a.sixTenths, d.reorderBegin, d.shuffle);
    if a.len - a.sixTenths > 1 {
      ReorderedPermutesWindow(s, a.len, a.sixTenths, d.reorderBegin, d.shuffle);
      forall k | 0 <= k < |s| && r[k] != 0 ensures r[k] in s {
        assert r[k] in multiset(r);
      }
    }
  }

  /** The two distinct switch values of a row and the draws of its two views. */
  datatype RowDraws = RowDraws(switch0: int, switch1: int, first: Draw, second: Draw)

  /** `random.sample(range(3), k=2)` yields two distinct values in 0..2. */
  predicate ValidRowDraws(s: seq<int>, a: Amounts, r: RowDraws)
  {
    0 <= r.switch0 < 3 && 0 <= r.switch1 < 3 && r.switch0 != r.switch1 &&
    ValidDraw(s, a, r.first) && ValidDraw(s, a, r.second)
  }

  /** Every row of the batch comes with valid amounts and draws. */
  predicate ValidBatch(rows: seq<seq<int>>, amounts: seq<Amounts>, draws: seq<RowDraws>)
  {
    |amounts| == |rows| && |draws| == |rows| &&
    forall i :: 0 <= i < |rows| ==> ValidRowDraws(rows[i], amounts[i], draws[i])
  }

  /** The two views of row i. */
  function Views(rows: seq<seq<int>>, amounts: seq<Amounts>, draws: seq<RowDraws>, i: int): (seq<int>, seq<int>)
    requires ValidBatch(rows, amounts, draws) && 0 <= i < |rows|
  {
    (Augmented(draws[i].switch0, rows[i], amounts[i], draws[i].first),
     Augmented(draws[i].switch1, rows[i], amounts[i], draws[i].second))
  }

  /**
   * augment: two clones of the batch, row i of each overwritten by the
   * augmentation its switch value selects.
   */
  method AugmentBatch(rows: seq<seq<int>>, amounts: seq<Amounts>, draws: seq<RowDraws>)
    returns (aug1: seq<seq<int>>, aug2: seq<seq<int>>)
    requires ValidBatch(rows, amounts, draws)
    ensures |aug1| == |rows| && |aug2| == |rows|
    ensures forall i :: 0 <= i < |rows| ==> (aug1[i], aug2[i]) == Views(rows, amounts, draws, i)
  {
    aug1, aug2 := rows, rows;
    for i := 0 to |rows|
      invariant |aug1| == |rows| && |aug2| == |rows|
      invariant forall k :: 0 <= k < i ==> (aug1[k], aug2[k]) == Views(rows, amounts, draws, k)
    {
      var x := ApplyAugmentation(draws[i].switch0, rows[i], amounts[i], draws[i].first);
      var y := ApplyAugmentation(draws[i].switch1, rows[i], amounts[i], draws[i].second);
      aug1 := aug1[i := x];
      aug2 := aug2[i := y];
    }
  }
}
