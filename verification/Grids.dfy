/** Rectangular grids stored row by row. */
module Grids {
  lemma RowMajor(r: nat, c: nat, width: nat, height: nat)
    requires r < height && c < width
    ensures r * width + c < height * width
  {
    assert (r + 1) * width <= height * width;
  }
}
