/**
 * The index logic of `create_dpca_feature_map`: which cells of the h x w
 * feature map receive which sampled value. The map starts at zero; the loops
 * visit the anchors `patch_size // 2, + step, ...` below `h - patch_size // 2`
 * (rows) and likewise for columns; for `step > 1` the anchor's value fills
 * the step x step block below and right of it (cut at the image edge), for
 * `step == 1` only the anchor cell.
 *
 * The value at an anchor (patch variance plus mean gradient magnitude) is
 * floating-point work and enters as the function `value`.
 */
module FeatureGrid {

  /** `patch_size // 2`: the first anchor and the margin left unsampled. */
  function Half(patchSize: nat): nat
  {
    patchSize / 2
  }

  /** The number of the stride block that index `r` falls in. */
  function BlockIndex(half: nat, step: nat, r: nat): nat
    requires step >= 1 && r >= half
  {
    (r - half) / step
  }

  /** The anchor whose block holds index `r`. */
  function Anchor(half: nat, step: nat, r: nat): nat
    requires step >= 1 && r >= half
  {
    half + BlockIndex(half, step, r) * step
  }

  /** Index `r` of an axis of length `n` lies in the block of a visited anchor. */
  predicate Covered(n: nat, half: nat, step: nat, r: nat)
    requires step >= 1
  {
    half <= r < n && Anchor(half, step, r) < n - half
  }

  /** What the finished map holds in cell (r, c). */
  function CellValue(h: nat, w: nat, half: nat, step: nat, value: (nat, nat) -> real, r: nat, c: nat): real
    requires step >= 1
  {
    if Covered(h, half, step, r) && Covered(w, half, step, c)
    then value(Anchor(half, step, r), Anchor(half, step, c))
    else 0.0
  }

  /** `feature_map[r0:r1, c0:c1] = v`. */
  method FillBlock(fm: array2<real>, r0: nat, r1: nat, c0: nat, c1: nat, v: real)
    requires r0 <= r1 <= fm.Length0 && c0 <= c1 <= fm.Length1
    modifies fm
    ensures forall r, c :: 0 <= r < fm.Length0 && 0 <= c < fm.Length1 ==>
      fm[r, c] == if r0 <= r < r1 && c0 <= c < c1 then v else old(fm[r, c])
  {
    var r := r0;
    while r < r1
      invariant r0 <= r <= r1
      invariant forall x, y :: 0 <= x < fm.Length0 && 0 <= y < fm.Length1 ==>
        fm[x, y] == if r0 <= x < r && c0 <= y < c1 then v else old(fm[x, y])
    {
      var c := c0;
      while c < c1
        invariant c0 <= c <= c1
        invariant forall x, y :: 0 <= x < fm.Length0 && 0 <= y < fm.Length1 ==>
          fm[x, y] == if (r0 <= x < r && c0 <= y < c1) || (x == r && c0 <= y < c) then v else old(fm[x, y])
      {
        fm[r, c] := v;
        c := c + 1;
      }
      r := r + 1;
    }
  }

  /** Multiplying by a step keeps order. */
  lemma MulLe(a: nat, b: nat, s: nat)
    requires a <= b
    ensures a * s <= b * s
  {
    assert b * s == a * s + (b - a) * s;
  }

  /** `x / s == m` exactly when `x` lies in the m-th run of `s` numbers. */
  lemma DivBlock(x: nat, s: nat, m: nat)
    requires s >= 1
    ensures x / s == m <==> m * s <= x < m * s + s
  {
    var q, r := x / s, x % s;
    assert x == q * s + r && 0 <= r < s;
    if q < m {
      MulLe(q + 1, m, s);
      assert (q + 1) * s == q * s + s;
    } else if q > m {
      MulLe(m + 1, q, s);
      assert (m + 1) * s == m * s + s;
    }
  }

  /** Multiplying by a positive step keeps strict order. */
  lemma MulStrict(a: nat, b: nat, s: nat)
    requires s >= 1 && a * s < b * s
    ensures a < b
  {
    if a >= b {
      MulLe(b, a, s);
    }
  }

  /** Index `r` lies in the block of the m-th anchor. */
  predicate InAnchorBlock(half: nat, step: nat, m: nat, r: nat)
    requires step >= 1
  {
    r >= half && BlockIndex(half, step, r) == m
  }

  /** The block of the m-th anchor `half + m*step` is the run of `step` indices from it. */
  lemma InBlock(half: nat, step: nat, m: nat, r: nat)
    requires step >= 1
    ensures InAnchorBlock(half, step, m, r) <==> half + m * step <= r < half + m * step + step
  {
    if r >= half {
      DivBlock(r - half, step, m);
    }
  }

  /** An index of a visited anchor's block is covered and has that anchor. */
  lemma BlockCovered(n: nat, half: nat, step: nat, m: nat, r: nat)
    requires step >= 1 && half + m * step < n - half && r < n
    requires InAnchorBlock(half, step, m, r)
    ensures Covered(n, half, step, r) && Anchor(half, step, r) == half + m * step
  {
  }

  /** Past the last visited anchor, every covered index is in an earlier block. */
  lemma CoveredBefore(n: nat, half: nat, step: nat, m: nat, r: nat)
    requires step >= 1 && half + m * step >= n - half
    requires Covered(n, half, step, r)
    ensures BlockIndex(half, step, r) < m
  {
    MulStrict(BlockIndex(half, step, r), m, step);
  }

  /** `feature_map[i:end_i, j:end_j] = v`, or `feature_map[i, j] = v` when `step == 1`. */
  method WriteBlock(fm: array2<real>, half: nat, step: nat, i: nat, j: nat, ghost m: nat, ghost n: nat, v: real)
    requires step >= 1 && i == half + m * step && j == half + n * step
    requires i < fm.Length0 && j < fm.Length1
    modifies fm
    ensures forall r, c :: 0 <= r < fm.Length0 && 0 <= c < fm.Length1 ==>
      fm[r, c] == if InAnchorBlock(half, step, m, r) && InAnchorBlock(half, step, n, c) then v else old(fm[r, c])
  {
    if step > 1 {
      var endI := if i + step < fm.Length0 then i + step else fm.Length0;
      var endJ := if j + step < fm.Length1 then j + step else fm.Length1;
      FillBlock(fm, i, endI, j, endJ, v);
    } else {
      fm[i, j] := v;
    }
    forall r, c | 0 <= r < fm.Length0 && 0 <= c < fm.Length1
      ensures fm[r, c] == if InAnchorBlock(half, step, m, r) && InAnchorBlock(half, step, n, c) then v else old(fm[r, c])
    {
      InBlock(half, step, m, r);
      InBlock(half, step, n, c);
    }
  }

  /**
   * What cell (r, c) holds once the anchors of the blocks before row block
   * `m`, and those of row block `m` before column block `n`, are written.
   */
  function PartialCell(h: nat, w: nat, half: nat, step: nat, value: (nat, nat) -> real, m: nat, n: nat, r: nat, c: nat): real
    requires step >= 1
  {
    if Covered(h, half, step, r) && Covered(w, half, step, c) &&
       (BlockIndex(half, step, r) < m || (BlockIndex(half, step, r) == m && BlockIndex(half, step, c) < n))
    then value(Anchor(half, step, r), Anchor(half, step, c)) else 0.0
  }

  /** The loops' invariant: every cell holds its `PartialCell` value. */
  ghost predicate RowsDone(fm: array2<real>, h: nat, w: nat, half: nat, step: nat, value: (nat, nat) -> real, m: nat, n: nat)
    requires step >= 1
    reads fm
  {
    fm.Length0 == h && fm.Length1 == w &&
    forall r, c :: 0 <= r < h && 0 <= c < w ==> fm[r, c] == PartialCell(h, w, half, step, value, m, n, r, c)
  }

  /** One iteration of the inner loop: the anchor (i, j) is written and the invariant advances a column block. */
  method WriteAnchor(fm: array2<real>, h: nat, w: nat, half: nat, step: nat, value: (nat, nat) -> real,
                     i: nat, j: nat, ghost m: nat, ghost n: nat)
    requires step >= 1 && i == half + m * step && j == half + n * step
    requires i < h - half && j < w - half
    requires RowsDone(fm, h, w, half, step, value, m, n)
    modifies fm
    ensures RowsDone(fm, h, w, half, step, value, m, n + 1)
  {
    var v := value(i, j);
    WriteBlock(fm, half, step, i, j, m, n, v);
    forall r, c | 0 <= r < h && 0 <= c < w
      ensures fm[r, c] == PartialCell(h, w, half, step, value, m, n + 1, r, c)
    {
      if InAnchorBlock(half, step, m, r) && InAnchorBlock(half, step, n, c) {
        BlockCovered(h, half, step, m, r);
        BlockCovered(w, half, step, n, c);
      }
    }
  }

  /** After the last column anchor the whole row block is done. */
  lemma NextRowBlock(fm: array2<real>, h: nat, w: nat, half: nat, step: nat, value: (nat, nat) -> real, m: nat, n: nat)
    requires step >= 1 && half + n * step >= w - half
    requires RowsDone(fm, h, w, half, step, value, m, n)
    ensures RowsDone(fm, h, w, half, step, value, m + 1, 0)
  {
    forall r, c | 0 <= r < h && 0 <= c < w
      ensures PartialCell(h, w, half, step, value, m, n, r, c) == PartialCell(h, w, half, step, value, m + 1, 0, r, c)
    {
      if Covered(w, half, step, c) {
        CoveredBefore(w, half, step, n, c);
      }
    }
  }

  /** After the last row anchor every cell holds its final value. */
  lemma AllRowBlocks(fm: array2<real>, h: nat, w: nat, half: nat, step: nat, value: (nat, nat) -> real, m: nat)
    requires step >= 1 && half + m * step >= h - half
    requires RowsDone(fm, h, w, half, step, value, m, 0)
    ensures forall r, c :: 0 <= r < h && 0 <= c < w ==> fm[r, c] == CellValue(h, w, half, step, value, r, c)
  {
    forall r, c | 0 <= r < h && 0 <= c < w
      ensures fm[r, c] == CellValue(h, w, half, step, value, r, c)
    {
      if Covered(h, half, step, r) {
        CoveredBefore(h, half, step, m, r);
      }
    }
  }

  /**
   * `create_dpca_feature_map`: the nested stride loops. Every cell ends up
   * with the value of the anchor whose block covers it, or 0.
   */
  method CreateFeatureMap(h: nat, w: nat, patchSize: nat, step: nat, value: (nat, nat) -> real)
    returns (fm: array2<real>)
    requires step >= 1
    ensures fm.Length0 == h && fm.Length1 == w
    ensures forall r, c :: 0 <= r < h && 0 <= c < w ==>
      fm[r, c] == CellValue(h, w, Half(patchSize), step, value, r, c)
  {
    var half := Half(patchSize);
    fm := new real[h, w]((r, c) => 0.0);
    var i := half;
    ghost var m := 0;
    while i < h - half
      invariant i == half + m * step
      invariant RowsDone(fm, h, w, half, step, value, m, 0)
    {
      var j := half;
      ghost var n := 0;
      while j < w - half
        invariant j == half + n * step
        invariant RowsDone(fm, h, w, half, step, value, m, n)
      {
        WriteAnchor(fm, h, w, half, step, value, i, j, m, n);
        j := j + step;
        n := n + 1;
      }
      NextRowBlock(fm, h, w, half, step, value, m, n);
      i := i + step;
      m := m + 1;
    }
    AllRowBlocks(fm, h, w, half, step, value, m);
  }
}
