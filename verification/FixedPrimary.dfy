/**
 Selection of the plane that is leased with the external CRTC: the primary plane
 whose rank among all primary planes equals the CRTC's DRM resource index.
 */
module FixedPrimary {
  import opened Options

  /** A plane as the composer reads it. `kind` is absent when the plane or its
      type property cannot be read; `drives` holds the CRTC resource indices in
      the plane's `possible_crtcs` mask. */
  datatype Plane = Plane(id: nat, kind: Option<PlaneKind>, drives: set<nat>)

  datatype PlaneKind = Overlay | Primary | Cursor

  datatype Selection = Selected(planeId: nat) | ErrorHardware | ErrorResources

  const MAX_CRTC_INDEX := 32

  predicate IsPrimary(plane: Plane)
  {
    plane.kind == Some(Primary)
  }

  /** The primary planes in enumeration order. */
  function Primaries(planes: seq<Plane>): seq<Plane>
  {
    if planes == [] then []
    else
      var last := planes[|planes| - 1];
      Primaries(planes[..|planes| - 1]) + if IsPrimary(last) then [last] else []
  }

  /** `k` is the resource index of `crtc`: its first position in the list. */
  ghost predicate IsResourceIndex(crtcs: seq<nat>, crtc: nat, k: nat)
  {
    k < |crtcs| && crtcs[k] == crtc && forall j :: 0 <= j < k ==> crtcs[j] != crtc
  }

  /** The fixed primary of the CRTC at index `k` exists, can drive it and has a
      usable object id. */
  predicate HasFixedPrimary(planes: seq<Plane>, k: nat)
  {
    && k < |Primaries(planes)|
    && k in Primaries(planes)[k].drives
    && Primaries(planes)[k].id != 0
  }

  /** Exactly when a CRTC gets `plane` as its leased primary. */
  ghost predicate Leases(crtcs: seq<nat>, planes: seq<Plane>, crtc: nat, plane: nat)
  {
    exists k: nat :: && IsResourceIndex(crtcs, crtc, k) && k < MAX_CRTC_INDEX
                && HasFixedPrimary(planes, k) && Primaries(planes)[k].id == plane
  }

  method FindCrtcIndex(crtcs: seq<nat>, crtc: nat) returns (index: Option<nat>)
    ensures index.Some? ==> IsResourceIndex(crtcs, crtc, index.value)
    ensures index.None? ==> crtc !in crtcs
  {
    for i := 0 to |crtcs|
      invariant forall j :: 0 <= j < i ==> crtcs[j] != crtc
    {
      if crtcs[i] == crtc {
        return Some(i);
      }
    }
    return None;
  }

  /** The lists are absent when the kernel refuses to enumerate them. */
  method SelectPlane(crtcs: Option<seq<nat>>, planes: Option<seq<Plane>>, crtc: nat)
    returns (result: Selection)
    ensures result.ErrorHardware? <==>
              crtcs.None? || (planes.None? && exists k: nat :: k < MAX_CRTC_INDEX && IsResourceIndex(crtcs.value, crtc, k))
    ensures forall plane: nat :: result == Selected(plane) <==>
              crtcs.Some? && planes.Some? && Leases(crtcs.value, planes.value, crtc, plane)
  {
    if crtcs.None? {
      return ErrorHardware;
    }
    var index := FindCrtcIndex(crtcs.value, crtc);
    if index.None? || index.value >= MAX_CRTC_INDEX {
      OneIndex(crtcs.value, crtc, index);
      return ErrorResources;
    }
    var crtcIndex := index.value;
    OneIndex(crtcs.value, crtc, index);
    if planes.None? {
      return ErrorHardware;
    }
    var selected := 0;
    var primaryIndex := 0;
    var i := 0;
    var all := planes.value;
    while i < |all| && selected == 0
      invariant 0 <= i <= |all|
      invariant primaryIndex == |Primaries(all[..i])|
      invariant selected != 0 ==> HasFixedPrimary(all[..i], crtcIndex) && selected == Primaries(all[..i])[crtcIndex].id
      invariant selected == 0 ==> !HasFixedPrimary(all[..i], crtcIndex)
      decreases |all| - i
    {
      var plane := all[i];
      assert all[..i + 1][..i] == all[..i];
      if IsPrimary(plane) {
        if primaryIndex == crtcIndex && crtcIndex in plane.drives {
          selected := plane.id;
        }
        primaryIndex := primaryIndex + 1;
      }
      i := i + 1;
    }
    PrimariesPrefix(all, i);
    assert all[..|all|] == all;
    if selected == 0 {
      return ErrorResources;
    }
    return Selected(selected);
  }

  lemma OneIndex(crtcs: seq<nat>, crtc: nat, index: Option<nat>)
    requires index.Some? ==> IsResourceIndex(crtcs, crtc, index.value)
    requires index.None? ==> crtc !in crtcs
    ensures forall k: nat :: IsResourceIndex(crtcs, crtc, k) <==> index == Some(k)
  {
    forall k: nat | IsResourceIndex(crtcs, crtc, k)
      ensures index == Some(k)
    {
      assert crtcs[k] in crtcs;
    }
  }

  lemma {:induction false} PrimariesPrefix(planes: seq<Plane>, i: nat)
    requires i <= |planes|
    ensures Primaries(planes[..i]) <= Primaries(planes)
    decreases |planes|
  {
    if i < |planes| {
      var shorter := planes[..|planes| - 1];
      PrimariesPrefix(shorter, i);
      assert shorter[..i] == planes[..i];
    } else {
      assert planes[..i] == planes;
    }
  }

  /** Two different CRTCs never lease the same plane, so leasing the external
      CRTC cannot hand over the plane of the internal display. */
  lemma NoSharedPlane(crtcs: seq<nat>, planes: seq<Plane>, a: nat, b: nat, p: nat, q: nat)
    requires forall i, j :: 0 <= i < j < |planes| ==> planes[i].id != planes[j].id
    requires a != b && Leases(crtcs, planes, a, p) && Leases(crtcs, planes, b, q)
    ensures p != q
  {
    var k: nat :| IsResourceIndex(crtcs, a, k) && k < MAX_CRTC_INDEX
             && HasFixedPrimary(planes, k) && Primaries(planes)[k].id == p;
    var l: nat :| IsResourceIndex(crtcs, b, l) && l < MAX_CRTC_INDEX
             && HasFixedPrimary(planes, l) && Primaries(planes)[l].id == q;
    if k < l {
      PrimariesDistinct(planes, k, l);
    } else {
      PrimariesDistinct(planes, l, k);
    }
  }

  lemma {:induction false} PrimariesDistinct(planes: seq<Plane>, k: nat, l: nat)
    requires forall i, j :: 0 <= i < j < |planes| ==> planes[i].id != planes[j].id
    requires k < l < |Primaries(planes)|
    ensures Primaries(planes)[k].id != Primaries(planes)[l].id
    decreases |planes|
  {
    var m := |planes| - 1;
    if l < |Primaries(planes[..m])| {
      PrimariesDistinct(planes[..m], k, l);
    } else {
      PrimariesAreListed(planes[..m], k);
    }
  }

  lemma {:induction false} PrimariesAreListed(planes: seq<Plane>, k: nat)
    requires k < |Primaries(planes)|
    ensures exists i :: 0 <= i < |planes| && planes[i] == Primaries(planes)[k] && IsPrimary(planes[i])
    decreases |planes|
  {
    var m := |planes| - 1;
    if k < |Primaries(planes[..m])| {
      PrimariesAreListed(planes[..m], k);
      var i :| 0 <= i < m && planes[..m][i] == Primaries(planes)[k];
      assert planes[i] == Primaries(planes)[k];
    } else {
      assert planes[m] == Primaries(planes)[k];
    }
  }
}
