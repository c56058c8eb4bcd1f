/** Layer scheduling: how many planes are cut and at which heights. */
module Schedule {
  import opened Wrappers
  import opened Geometry

  /** Smallest integer not below `x` (numpy's `ceil`, on exact reals). */
  function Ceil(x: real): (c: int)
    ensures x <= c as real < x + 1.0
  {
    -((-x).Floor)
  }

  /**
   * `int(ceil(height / layerHeight))`. A zero layer height gives an infinite or
   * undefined quotient, which the integer conversion rejects: `None`.
   */
  function LayerCount(height: real, layerHeight: real): (r: Option<int>)
    ensures r.None? <==> layerHeight == 0.0
    ensures r.Some? ==> height / layerHeight <= r.value as real < height / layerHeight + 1.0
  {
    if layerHeight == 0.0 then None else Some(Ceil(height / layerHeight))
  }

  /** Height of the plane cut for loop index `i`. */
  function LayerZ(zMin: real, layerHeight: real, i: int): real {
    zMin + i as real * layerHeight
  }

  /**
   * For a positive extent H and step h, `n = ceil(H / h)` planes cover the
   * extent (n * h >= H) and one fewer would not ((n - 1) * h < H).
   */
  lemma LayerCountCovers(height: real, layerHeight: real)
    requires 0.0 < height && 0.0 < layerHeight
    ensures LayerCount(height, layerHeight).Some?
    ensures var n := LayerCount(height, layerHeight).value;
      && 1 <= n
      && height <= n as real * layerHeight
      && (n - 1) as real * layerHeight < height
  {
    var q := height / layerHeight;
    var n := Ceil(q);
    DivMul(height, layerHeight);
    assert 0.0 < q by {
      if q <= 0.0 {
        MulLe(q, 0.0, layerHeight);
        assert false;
      }
    }
    MulLe(q, n as real, layerHeight);
    MulLt((n - 1) as real, q, layerHeight);
  }

  /** A flat extent yields no layer at all, whatever the non-zero step. */
  lemma LayerCountFlat(layerHeight: real)
    requires layerHeight != 0.0
    ensures LayerCount(0.0, layerHeight) == Some(0)
  {
  }

  /** A negative step yields a non-positive count: the layer loop runs zero times. */
  lemma LayerCountNegativeStep(height: real, layerHeight: real)
    requires 0.0 <= height && layerHeight < 0.0
    ensures LayerCount(height, layerHeight).Some? && LayerCount(height, layerHeight).value <= 0
  {
    var q := height / layerHeight;
    DivMul(height, layerHeight);
    assert q <= 0.0 by {
      if 0.0 < q {
        MulLt(layerHeight, 0.0, q);
      }
    }
  }

  /** A step at least as tall as a positive extent gives exactly one layer. */
  lemma LayerCountSingle(height: real, layerHeight: real)
    requires 0.0 < height <= layerHeight
    ensures LayerCount(height, layerHeight) == Some(1)
  {
    var q := height / layerHeight;
    DivMul(height, layerHeight);
    assert 0.0 < q <= 1.0 by {
      if q <= 0.0 {
        MulLe(q, 0.0, layerHeight);
      } else if 1.0 < q {
        MulLt(1.0, q, layerHeight);
      }
    }
    var c := Ceil(q);
    assert 0 < c < 2 by {
      assert 0.0 < c as real < 2.0;
    }
    assert LayerCount(height, layerHeight) == Some(c);
  }

  /**
   * With a positive step the sampled heights strictly increase with the index,
   * and those of scheduled indices lie in [z_min, z_min + H).
   */
  lemma LayerHeightsIncreasing(zMin: real, layerHeight: real, i: int, j: int)
    requires 0.0 < layerHeight && i < j
    ensures LayerZ(zMin, layerHeight, i) < LayerZ(zMin, layerHeight, j)
  {
    MulLt(i as real, j as real, layerHeight);
  }

  lemma LayerHeightsInRange(zMin: real, height: real, layerHeight: real, i: int)
    requires 0.0 <= height && 0.0 < layerHeight
    requires LayerCount(height, layerHeight).Some?
    requires 0 <= i < LayerCount(height, layerHeight).value
    ensures zMin <= LayerZ(zMin, layerHeight, i) < zMin + height
  {
    if height == 0.0 {
      LayerCountFlat(layerHeight);
    } else {
      LayerCountCovers(height, layerHeight);
      var n := LayerCount(height, layerHeight).value;
      MulLe(i as real, (n - 1) as real, layerHeight);
      MulLe(0.0, i as real, layerHeight);
    }
  }
}
