/** Heart-rate zone classification: a first-match scan over a fixed table of
    five bands with inclusive integer bounds. */
module Zones {
  import opened Common

  datatype Zone = Z1 | Z2 | Z3 | Z4 | Z5 | Unk

  /** A row of the zone table; a missing bound is open. */
  datatype Band = Band(zone: Zone, lo: Option<int>, hi: Option<int>)

  /** The calibrated zones, in the order they are tried. */
  const ZoneTable: seq<Band> := [
    Band(Z1, None, Some(105)),
    Band(Z2, Some(106), Some(122)),
    Band(Z3, Some(123), Some(135)),
    Band(Z4, Some(136), Some(148)),
    Band(Z5, Some(149), None)
  ]

  /** The three checks made for one band: open below, open above, or closed. */
  predicate Matches(b: Band, hr: real)
  {
    || (b.lo.None? && b.hi.Some? && hr <= b.hi.value as real)
    || (b.hi.None? && b.lo.Some? && hr >= b.lo.value as real)
    || (b.lo.Some? && b.hi.Some? && b.lo.value as real <= hr <= b.hi.value as real)
  }

  /** The zone of the first band in `bands` that matches, or `Unk` when none does. */
  function FirstMatch(bands: seq<Band>, hr: real): (z: Zone)
    requires forall i :: 0 <= i < |bands| ==> bands[i].zone != Unk
    ensures z == Unk <==> forall i :: 0 <= i < |bands| ==> !Matches(bands[i], hr)
    ensures forall i :: 0 <= i < |bands| && Matches(bands[i], hr) ==>
      (forall j :: 0 <= j < i ==> !Matches(bands[j], hr)) ==> z == bands[i].zone
  {
    if bands == [] then Unk
    else if Matches(bands[0], hr) then bands[0].zone
    else
      var z := FirstMatch(bands[1..], hr);
      assert forall i :: 1 <= i < |bands| ==> bands[1..][i - 1] == bands[i];
      z
  }

  /** `_classify_zone`: the first band of the table that matches. */
  function ClassifyZone(hr: real): Zone
  {
    FirstMatch(ZoneTable, hr)
  }

  /** The classification stated as the five bands it amounts to. A value strictly
      between two integer bounds (105.5, say) matches no band. */
  lemma {:induction false} ClassifyZoneBands(hr: real)
    ensures ClassifyZone(hr) == Z1 <==> hr <= 105.0
    ensures ClassifyZone(hr) == Z2 <==> 106.0 <= hr <= 122.0
    ensures ClassifyZone(hr) == Z3 <==> 123.0 <= hr <= 135.0
    ensures ClassifyZone(hr) == Z4 <==> 136.0 <= hr <= 148.0
    ensures ClassifyZone(hr) == Z5 <==> hr >= 149.0
    ensures ClassifyZone(hr) == Unk <==>
      (105.0 < hr < 106.0) || (122.0 < hr < 123.0) || (135.0 < hr < 136.0) || (148.0 < hr < 149.0)
  {
    assert Matches(ZoneTable[0], hr) <==> hr <= 105.0;
    assert Matches(ZoneTable[1], hr) <==> 106.0 <= hr <= 122.0;
    assert Matches(ZoneTable[2], hr) <==> 123.0 <= hr <= 135.0;
    assert Matches(ZoneTable[3], hr) <==> 136.0 <= hr <= 148.0;
    assert Matches(ZoneTable[4], hr) <==> hr >= 149.0;
  }

  /** No two bands of the table share a value, so first-match order never matters. */
  lemma {:induction false} BandsDisjoint(i: nat, j: nat, hr: real)
    requires i < j < |ZoneTable|
    ensures !(Matches(ZoneTable[i], hr) && Matches(ZoneTable[j], hr))
  {
  }

  /** Every whole-number bpm falls in exactly one of Z1..Z5. */
  lemma {:induction false} IntegerBpmClassified(bpm: int)
    ensures ClassifyZone(bpm as real) != Unk
    ensures exists i :: 0 <= i < |ZoneTable| && Matches(ZoneTable[i], bpm as real)
  {
    var hr := bpm as real;
    ClassifyZoneBands(hr);
    if bpm <= 105 {
      assert Matches(ZoneTable[0], hr);
    } else if bpm <= 122 {
      assert Matches(ZoneTable[1], hr);
    } else if bpm <= 135 {
      assert Matches(ZoneTable[2], hr);
    } else if bpm <= 148 {
      assert Matches(ZoneTable[3], hr);
    } else {
      assert Matches(ZoneTable[4], hr);
    }
  }
}
