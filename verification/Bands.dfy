/** Bands over any trace of values: a bit is up exactly since it was last raised. */
module BandLaws {
  import opened Bms

  /** A bit after a trace of values, evaluated at each over what it was. */
  function BitAfter(values: seq<real>, first: bool, band: Band): bool {
    if values == [] then first
    else Rising(BitAfter(values[..|values| - 1], first, band), values[|values| - 1], band)
  }

  /** The band was reached at some value, or the bit up before the first. */
  predicate Raised(values: seq<real>, first: bool, band: Band, j: nat)
    requires j <= |values|
  {
    if j == 0 then first else band.raise <= values[j - 1]
  }

  /** And every value since has been above where it clears. */
  predicate UpSince(values: seq<real>, first: bool, band: Band) {
    exists j :: 0 <= j <= |values| && Raised(values, first, band, j)
        && forall i :: j <= i < |values| ==> band.clear < values[i]
  }

  lemma OneMoreValue(values: seq<real>, first: bool, band: Band, v: real)
    ensures UpSince(values + [v], first, band)
       <==> (UpSince(values, first, band) && band.clear < v) || band.raise <= v
  {
    var all := values + [v];
    assert forall j :: 0 <= j <= |values| ==> Raised(all, first, band, j) == Raised(values, first, band, j);
    if UpSince(values, first, band) && band.clear < v {
      var j :| 0 <= j <= |values| && Raised(values, first, band, j)
          && forall i :: j <= i < |values| ==> band.clear < values[i];
      assert Raised(all, first, band, j);
    }
    if band.raise <= v { assert Raised(all, first, band, |all|); }
    if UpSince(all, first, band) {
      var j :| 0 <= j <= |all| && Raised(all, first, band, j)
          && forall i :: j <= i < |all| ==> band.clear < all[i];
      if j < |all| {
        assert all[|values|] == v;
        assert forall i :: j <= i < |values| ==> all[i] == values[i];
        assert Raised(values, first, band, j);
      }
    }
  }

  /** Over any trace a bit that raises as its value climbs is up exactly when some value, or
      the bit before the first, raised it and every value since stayed above where it
      clears. */
  lemma {:induction false} RisingHolds(values: seq<real>, first: bool, band: Band)
    requires band.clear < band.raise
    ensures BitAfter(values, first, band) <==> UpSince(values, first, band)
  {
    hide UpSince;
    if values == [] {
      NothingSeen(first, band);
    } else {
      var init, v := values[..|values| - 1], values[|values| - 1];
      RisingHolds(init, first, band);
      OneMoreValue(init, first, band, v);
      assert init + [v] == values;
    }
  }

  lemma NothingSeen(first: bool, band: Band)
    ensures UpSince([], first, band) == first
  {
    assert Raised([], first, band, 0) == first;
  }

  /** A bit that raises as its value falls is the same of the negated value and band. */
  lemma FallingMirrors(raised: bool, v: real, band: Band)
    ensures Falling(raised, v, band) <==> Rising(raised, -v, Band(-band.raise, -band.clear))
  {}
}
