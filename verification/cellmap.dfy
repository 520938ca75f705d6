/** The 3-D cell scene (components/CellMap.tsx): the proxies built from the
    catalog, pointer dispatch and hover ownership, the per-frame idle step,
    the highlight outline, the floating label, the camera look-at target and
    the map's own back control. */
module CellMap {
  import opened Types
  import opened Text
  import opened Organelles

  /** One rendered instance of a catalog record. A decorative proxy is an extra
      copy of a record at its own pose; it still refers to the same record. */
  datatype Proxy = Proxy(item: Organelle, position: Vec3, rotation: Vec3, scale: Vec3, decorative: bool)

  /** The pose of one decorative copy. */
  datatype ExtraPose = ExtraPose(position: Vec3, rotation: Vec3)

  const ExtraChloroplasts: seq<ExtraPose> := [
    ExtraPose(Vec3(2.5, 2.0, 0.8), Vec3(0.0, 0.0, 0.5)),
    ExtraPose(Vec3(-2.0, 0.0, 0.8), Vec3(0.0, 0.0, -0.2)),
    ExtraPose(Vec3(1.5, -3.5, -0.5), Vec3(0.5, 0.5, 0.0))
  ]

  const ExtraMitochondria: seq<ExtraPose> := [
    ExtraPose(Vec3(-2.5, 1.5, 0.8), Vec3(0.0, 0.0, 1.0)),
    ExtraPose(Vec3(2.0, 3.5, 0.5), Vec3(1.0, 1.0, 0.0))
  ]

  /** What the map reports through `onSelect`: a record, or the empty object
      `{}` that its back control sends. */
  datatype Report = Record(o: Organelle) | Blank

  /** JavaScript truthiness of `selectedId`: null and "" are both falsy. */
  predicate Truthy(selectedId: Option<string>) {
    selectedId.Some? && selectedId.value != ""
  }

  // ---------------------------------------------------------------------------
  // Building the proxy list

  /** The primary proxy of a record: its own pose, no rotation when it has none. */
  function PrimaryProxy(o: Organelle): Proxy {
    Proxy(o, o.position3d, if o.rotation3d.Some? then o.rotation3d.value else Origin, o.scale3d, false)
  }

  /** A proxy stands at the record's own position and scale, with the record's
      rotation or none. */
  predicate PosedAsRecord(p: Proxy, o: Organelle) {
    && p.position == o.position3d && p.scale == o.scale3d
    && p.rotation == (if o.rotation3d.Some? then o.rotation3d.value else Origin)
  }

  /** A proxy stands at a configured extra pose, with the base record's scale. */
  predicate PosedAsExtra(p: Proxy, e: ExtraPose, base: Organelle) {
    p.position == e.position && p.rotation == e.rotation && p.scale == base.scale3d
  }

  /** Decorative copies of `base`: the configured pose, the record's own scale. */
  function DecorativeProxies(base: Organelle, poses: seq<ExtraPose>): (r: seq<Proxy>)
    ensures |r| == |poses|
    ensures forall i :: 0 <= i < |r| ==> r[i].item == base && r[i].decorative
    ensures forall i :: 0 <= i < |r| ==>
      r[i].position == poses[i].position && r[i].rotation == poses[i].rotation && r[i].scale == base.scale3d
  {
    seq(|poses|, i requires 0 <= i < |poses| => Proxy(base, poses[i].position, poses[i].rotation, base.scale3d, true))
  }

  /** One primary proxy per record, in catalog order. */
  function PrimaryProxies(catalog: seq<Organelle>): (r: seq<Proxy>)
    ensures |r| == |catalog|
    ensures forall i :: 0 <= i < |r| ==> r[i].item == catalog[i] && !r[i].decorative
    ensures forall i :: 0 <= i < |r| ==> PosedAsRecord(r[i], catalog[i])
  {
    seq(|catalog|, i requires 0 <= i < |catalog| => PrimaryProxy(catalog[i]))
  }

  /** The primaries followed by the decorative copies of the two given bases. */
  function Assemble(catalog: seq<Organelle>, chloro: Organelle, mito: Organelle): (all: seq<Proxy>)
    requires chloro in catalog && mito in catalog
    ensures |all| == |catalog| + |ExtraChloroplasts| + |ExtraMitochondria|
    ensures forall i :: 0 <= i < |all| ==> (all[i].decorative <==> i >= |catalog|)
    ensures forall i :: 0 <= i < |all| ==> all[i].item in catalog
    ensures forall i :: 0 <= i < |catalog| ==> all[i].item == catalog[i]
    ensures forall i :: |catalog| <= i < |all| ==>
      all[i].item == (if i < |catalog| + |ExtraChloroplasts| then chloro else mito)
    ensures forall i :: 0 <= i < |catalog| ==> PosedAsRecord(all[i], catalog[i])
    ensures forall i :: |catalog| <= i < |catalog| + |ExtraChloroplasts| ==>
      PosedAsExtra(all[i], ExtraChloroplasts[i - |catalog|], chloro)
    ensures forall i :: |catalog| + |ExtraChloroplasts| <= i < |all| ==>
      PosedAsExtra(all[i], ExtraMitochondria[i - |catalog| - |ExtraChloroplasts|], mito)
  {
    var primaries := PrimaryProxies(catalog);
    var chloros := DecorativeProxies(chloro, ExtraChloroplasts);
    var mitos := DecorativeProxies(mito, ExtraMitochondria);
    var all := primaries + chloros + mitos;
    assert forall i :: 0 <= i < |catalog| ==> all[i] == primaries[i];
    assert forall i :: |catalog| <= i < |catalog| + |chloros| ==> all[i] == chloros[i - |catalog|];
    assert forall i :: |catalog| + |chloros| <= i < |all| ==> all[i] == mitos[i - |catalog| - |chloros|];
    all
  }

  /** One primary proxy per record, then the extra chloroplasts, then the extra
      mitochondria. The two base lookups carry a non-null assertion in the
      source; when either fails the scene cannot render (None). */
  function BuildProxies(catalog: seq<Organelle>): (r: Option<seq<Proxy>>)
    ensures r.Some? <==> Find(catalog, ChloroplastId).Some? && Find(catalog, MitochondriaId).Some?
    ensures r.Some? ==> |r.value| == |catalog| + |ExtraChloroplasts| + |ExtraMitochondria|
    ensures r.Some? ==> forall i :: 0 <= i < |r.value| ==> (r.value[i].decorative <==> i >= |catalog|)
    ensures r.Some? ==> forall i :: 0 <= i < |r.value| ==> r.value[i].item in catalog
    ensures r.Some? ==> forall i :: 0 <= i < |catalog| ==> r.value[i].item == catalog[i]
    ensures r.Some? ==> forall i :: |catalog| <= i < |r.value| ==>
      r.value[i].item == (if i < |catalog| + |ExtraChloroplasts| then Find(catalog, ChloroplastId).value
                          else Find(catalog, MitochondriaId).value)
    ensures r.Some? ==> forall i :: 0 <= i < |catalog| ==> PosedAsRecord(r.value[i], catalog[i])
    ensures r.Some? ==> forall i :: |catalog| <= i < |catalog| + |ExtraChloroplasts| ==>
      PosedAsExtra(r.value[i], ExtraChloroplasts[i - |catalog|], Find(catalog, ChloroplastId).value)
    ensures r.Some? ==> forall i :: |catalog| + |ExtraChloroplasts| <= i < |r.value| ==>
      PosedAsExtra(r.value[i], ExtraMitochondria[i - |catalog| - |ExtraChloroplasts|], Find(catalog, MitochondriaId).value)
  {
    var chloro := Find(catalog, ChloroplastId);
    var mito := Find(catalog, MitochondriaId);
    if chloro.None? || mito.None? then None
    else Some(Assemble(catalog, chloro.value, mito.value))
  }

  /** The shape of the proxy list for any nine-record catalog whose chloroplast
      and mitochondria sit at indices 6 and 7. */
  lemma ProxiesOfNineRecords(catalog: seq<Organelle>)
    requires |catalog| == 9
    requires Find(catalog, ChloroplastId) == Some(catalog[6])
    requires Find(catalog, MitochondriaId) == Some(catalog[7])
    ensures BuildProxies(catalog).Some?
    ensures |BuildProxies(catalog).value| == 14
    ensures forall i :: 0 <= i < 14 ==> (BuildProxies(catalog).value[i].decorative <==> i >= 9)
    ensures forall i :: 9 <= i < 12 ==> BuildProxies(catalog).value[i].item == catalog[6]
    ensures forall i :: 12 <= i < 14 ==> BuildProxies(catalog).value[i].item == catalog[7]
    ensures BuildProxies(catalog).value[6].item == catalog[6]
    ensures BuildProxies(catalog).value[7].item == catalog[7]
  {
    assert |ExtraChloroplasts| == 3 && |ExtraMitochondria| == 2;
  }

  /** The layout of the scene's proxy list: 9 primaries in catalog order, then
      3 decorative chloroplasts and 2 decorative mitochondria sharing the
      records of primaries 6 and 7. */
  predicate SceneShape(ps: seq<Proxy>) {
    && |ps| == 14 && |Catalog| == 9
    && (forall i :: 0 <= i < 14 ==> (ps[i].decorative <==> i >= 9))
    && (forall i :: 0 <= i < 9 ==> ps[i].item == Catalog[i])
    && (forall i :: 9 <= i < 12 ==> ps[i].item == ps[6].item)
    && (forall i :: 12 <= i < 14 ==> ps[i].item == ps[7].item)
    && ps[6].item.id == ChloroplastId && ps[7].item.id == MitochondriaId
  }

  /** The scene builds, and has the layout above. */
  lemma SceneProxies()
    ensures BuildProxies(Catalog).Some?
    ensures SceneShape(BuildProxies(Catalog).value)
  {
    ChloroplastAndMitochondriaPresent();
    ProxiesOfNineRecords(Catalog);
  }

  // ---------------------------------------------------------------------------
  // Hover and click

  predicate IsHovered(p: Proxy, hover: Option<string>) {
    hover == Some(p.item.id)
  }

  predicate IsSelected(p: Proxy, selectedId: Option<string>) {
    selectedId == Some(p.item.id)
  }

  /** The hover invariant: an enclosing record never owns the hover. */
  predicate HoverOk(hover: Option<string>) {
    hover.None? || !IsEnclosingId(hover.value)
  }

  /** `onPointerOver` of one proxy: enclosing proxies ignore the event and let
      it pass on; the others take the hover and stop propagation. */
  function PointerOver(hover: Option<string>, p: Proxy): Option<string> {
    if IsEnclosingId(p.item.id) then hover else Some(p.item.id)
  }

  /** A pointer-over event delivered along the pick ray, nearest hit first,
      until a handler stops it: the first non-enclosing hit owns the hover,
      and with none the hover is untouched. */
  function DispatchOver(hover: Option<string>, hits: seq<Proxy>): (r: Option<string>)
    ensures (forall i :: 0 <= i < |hits| ==> IsEnclosingId(hits[i].item.id)) ==> r == hover
    ensures (exists i :: 0 <= i < |hits| && !IsEnclosingId(hits[i].item.id)) ==>
      exists i :: 0 <= i < |hits| && r == Some(hits[i].item.id) && !IsEnclosingId(hits[i].item.id)
        && forall j :: 0 <= j < i ==> IsEnclosingId(hits[j].item.id)
    ensures HoverOk(hover) ==> HoverOk(r)
  {
    if hits == [] then hover
    else if !IsEnclosingId(hits[0].item.id) then PointerOver(hover, hits[0])
    else
      var r := DispatchOver(PointerOver(hover, hits[0]), hits[1..]);
      assert forall i :: 1 <= i < |hits| ==> hits[i] == hits[1..][i - 1];
      if exists i :: 0 <= i < |hits| && !IsEnclosingId(hits[i].item.id) then
        var k :| 0 <= k < |hits[1..]| && r == Some(hits[1..][k].item.id) && !IsEnclosingId(hits[1..][k].item.id)
                 && forall j :: 0 <= j < k ==> IsEnclosingId(hits[1..][j].item.id);
        assert r == Some(hits[k + 1].item.id);
        r
      else r
  }

  /** The pointer events the scene reacts to. `Out` is `onPointerOut` of the
      proxy the pointer left; it never stops propagation. */
  datatype PointerEvent = Over(hits: seq<Proxy>) | Out(left: Proxy)

  function ApplyPointer(hover: Option<string>, e: PointerEvent): Option<string> {
    match e
    case Over(hits) => DispatchOver(hover, hits)
    case Out(_) => None
  }

  /** The hover state after a sequence of pointer events. */
  function HoverAfter(hover: Option<string>, events: seq<PointerEvent>): Option<string>
    decreases |events|
  {
    if events == [] then hover
    else ApplyPointer(HoverAfter(hover, events[..|events| - 1]), events[|events| - 1])
  }

  /** No sequence of pointer events gives the hover to an enclosing record. */
  lemma {:induction false} HoverNeverEnclosing(hover: Option<string>, events: seq<PointerEvent>)
    requires HoverOk(hover)
    ensures HoverOk(HoverAfter(hover, events))
    decreases |events|
  {
    if events != [] {
      HoverNeverEnclosing(hover, events[..|events| - 1]);
    }
  }

  /** Whatever came before, a pointer-out leaves nothing hovered. */
  lemma PointerOutClears(hover: Option<string>, events: seq<PointerEvent>, left: Proxy)
    ensures HoverAfter(hover, events + [Out(left)]) == None
  {
    assert (events + [Out(left)])[..|events|] == events;
  }

  /** A click is handled by the nearest hit, which stops it and reports its
      record, enclosing or not; a click that hits nothing (outside the cell's
      outline) reports nothing. */
  function DispatchClick(hits: seq<Proxy>): Option<Report> {
    if hits == [] then None else Some(Record(hits[0].item))
  }

  /** Decorative copies share their record's hover, selection and click with
      the primary proxy of that record. */
  lemma DecorativeActsAsPrimary(ps: seq<Proxy>, i: int, hover: Option<string>, selectedId: Option<string>)
    requires SceneShape(ps) && 9 <= i < 14
    ensures var k := if i < 12 then 6 else 7;
      && ps[i].decorative && !ps[k].decorative
      && DispatchClick([ps[i]]) == DispatchClick([ps[k]])
      && (IsSelected(ps[i], selectedId) <==> IsSelected(ps[k], selectedId))
      && (IsHovered(ps[i], hover) <==> IsHovered(ps[k], hover))
      && DispatchOver(hover, [ps[i]]) == DispatchOver(hover, [ps[k]])
  {
    var k := if i < 12 then 6 else 7;
    assert ps[i].item == ps[k].item;
    assert [ps[i]][1..] == [] == [ps[k]][1..];
  }

  /** The decorative chloroplasts are selected exactly when "chloroplast" is,
      the decorative mitochondria exactly when "mitochondria" is. */
  lemma DecorativeSelectedTogether(ps: seq<Proxy>, selectedId: Option<string>)
    requires SceneShape(ps)
    ensures forall i :: 9 <= i < 12 ==> (IsSelected(ps[i], selectedId) <==> selectedId == Some(ChloroplastId))
    ensures forall i :: 12 <= i < 14 ==> (IsSelected(ps[i], selectedId) <==> selectedId == Some(MitochondriaId))
  {
  }

  // ---------------------------------------------------------------------------
  // Idle animation

  /** The live transform the frame loop writes. */
  datatype Pose = Pose(position: Vec3, scale: Vec3)

  function RestPose(p: Proxy): Pose {
    Pose(p.position, p.scale)
  }

  /** Selected and enclosing proxies are not animated. */
  predicate IsFrozen(p: Proxy, selectedId: Option<string>) {
    IsSelected(p, selectedId) || IsEnclosingId(p.item.id)
  }

  const LerpFactor: real := 0.1

  function Scaled(v: Vec3, k: real): Vec3 {
    Vec3(v.x * k, v.y * k, v.z * k)
  }

  function Minus(a: Vec3, b: Vec3): Vec3 {
    Vec3(a.x - b.x, a.y - b.y, a.z - b.z)
  }

  /** `Vector3.lerp(target, t)`: move `t` of the way from `v` to `target`. */
  function Lerp(v: Vec3, target: Vec3, t: real): Vec3 {
    Vec3(v.x + (target.x - v.x) * t, v.y + (target.y - v.y) * t, v.z + (target.z - v.z) * t)
  }

  /** The scale the idle step is heading for: 10% larger while hovered. */
  function ScaleTarget(p: Proxy, hover: Option<string>): Vec3 {
    Scaled(p.scale, if IsHovered(p, hover) then 1.1 else 1.0)
  }

  /** One frame of the idle animation; `wobble` is this frame's
      `sin(0.5 t + x) * 0.05` for the proxy's x. */
  function IdleStep(p: Proxy, pose: Pose, hover: Option<string>, selectedId: Option<string>, wobble: real): (r: Pose)
    ensures IsFrozen(p, selectedId) ==> r == pose
    ensures !IsFrozen(p, selectedId) ==>
      && r.position.x == pose.position.x && r.position.z == pose.position.z
      && r.position.y - p.position.y == (if IsHovered(p, hover) then 2.0 * wobble else wobble)
    ensures !IsFrozen(p, selectedId) ==>
      Minus(ScaleTarget(p, hover), r.scale) == Scaled(Minus(ScaleTarget(p, hover), pose.scale), 0.9)
  {
    if IsFrozen(p, selectedId) then pose
    else
      var y := p.position.y + (if IsHovered(p, hover) then wobble * 2.0 else wobble);
      Pose(pose.position.(y := y), Lerp(pose.scale, ScaleTarget(p, hover), LerpFactor))
  }

  /** With a wobble inside the source's amplitude, a proxy never drifts more than
      0.1 from its rest height (0.05 when not hovered). */
  lemma WobbleBounded(p: Proxy, pose: Pose, hover: Option<string>, selectedId: Option<string>, wobble: real)
    requires -0.05 <= wobble <= 0.05
    ensures var r := IdleStep(p, pose, hover, selectedId, wobble);
      !IsFrozen(p, selectedId) ==>
        -0.1 <= r.position.y - p.position.y <= 0.1
        && (!IsHovered(p, hover) ==> -0.05 <= r.position.y - p.position.y <= 0.05)
  {
  }

  /** The pose after one idle step per wobble value, first to last. */
  function IdleSteps(p: Proxy, pose: Pose, hover: Option<string>, selectedId: Option<string>, wobbles: seq<real>): Pose
    decreases |wobbles|
  {
    if wobbles == [] then pose
    else IdleStep(p, IdleSteps(p, pose, hover, selectedId, wobbles[..|wobbles| - 1]), hover, selectedId, wobbles[|wobbles| - 1])
  }

  function Pow(b: real, n: nat): real {
    if n == 0 then 1.0 else b * Pow(b, n - 1)
  }

  /** Scaling by `k` and then by `c` is scaling by `c * k`. */
  lemma ScaledTwice(v: Vec3, k: real, c: real)
    ensures Scaled(Scaled(v, k), c) == Scaled(v, c * k)
  {
    assert v.x * k * c == v.x * (c * k);
    assert v.y * k * c == v.y * (c * k);
    assert v.z * k * c == v.z * (c * k);
  }

  /** One unfrozen frame multiplies the remaining scale distance by 0.9. */
  lemma ContractStep(p: Proxy, prev: Pose, hover: Option<string>, selectedId: Option<string>, wobble: real, d: Vec3, k: real)
    requires !IsFrozen(p, selectedId)
    requires Minus(ScaleTarget(p, hover), prev.scale) == Scaled(d, k)
    ensures Minus(ScaleTarget(p, hover), IdleStep(p, prev, hover, selectedId, wobble).scale) == Scaled(d, 0.9 * k)
  {
    ScaledTwice(d, k, 0.9);
  }

  /** The hover scale converges geometrically: after n frames with the same
      hover the remaining distance to the target is 0.9^n of the initial one. */
  lemma {:induction false} ScaleConverges(p: Proxy, pose: Pose, hover: Option<string>, selectedId: Option<string>, wobbles: seq<real>)
    requires !IsFrozen(p, selectedId)
    ensures Minus(ScaleTarget(p, hover), IdleSteps(p, pose, hover, selectedId, wobbles).scale)
         == Scaled(Minus(ScaleTarget(p, hover), pose.scale), Pow(0.9, |wobbles|))
    decreases |wobbles|
  {
    if wobbles != [] {
      var n := |wobbles|;
      var prev := IdleSteps(p, pose, hover, selectedId, wobbles[..n - 1]);
      ScaleConverges(p, pose, hover, selectedId, wobbles[..n - 1]);
      ContractStep(p, prev, hover, selectedId, wobbles[n - 1], Minus(ScaleTarget(p, hover), pose.scale), Pow(0.9, n - 1));
    }
  }

  /** The frame loop never moves a frozen proxy: whatever pose it has, it keeps
      on every frame until the selection changes. */
  lemma {:induction false} FrozenHoldsPose(p: Proxy, pose: Pose, hover: Option<string>, selectedId: Option<string>, wobbles: seq<real>)
    requires IsFrozen(p, selectedId)
    ensures IdleSteps(p, pose, hover, selectedId, wobbles) == pose
    decreases |wobbles|
  {
    if wobbles != [] {
      FrozenHoldsPose(p, pose, hover, selectedId, wobbles[..|wobbles| - 1]);
    }
  }

  /** A render applies the position and scale props afresh, so the render that
      follows a selection change puts the selected proxy at its rest pose; the
      frame loop then keeps it there. */
  lemma SelectedHoldsRestPose(p: Proxy, hover: Option<string>, selectedId: Option<string>, wobbles: seq<real>)
    requires IsSelected(p, selectedId)
    ensures IdleSteps(p, RestPose(p), hover, selectedId, wobbles).position == p.position
    ensures IdleSteps(p, RestPose(p), hover, selectedId, wobbles).scale == p.scale
  {
    FrozenHoldsPose(p, RestPose(p), hover, selectedId, wobbles);
  }

  /** One rendered frame over the whole scene; `wobbleAt(x)` is this frame's
      wobble for a proxy whose rest x is `x`. */
  method AdvanceFrame(proxies: seq<Proxy>, poses: seq<Pose>, hover: Option<string>, selectedId: Option<string>,
                      wobbleAt: real -> real) returns (next: seq<Pose>)
    requires |poses| == |proxies|
    ensures |next| == |proxies|
    ensures forall i :: 0 <= i < |proxies| && IsFrozen(proxies[i], selectedId) ==> next[i] == poses[i]
    ensures forall i :: 0 <= i < |proxies| && !IsFrozen(proxies[i], selectedId) ==>
      next[i].position.y - proxies[i].position.y
        == (if IsHovered(proxies[i], hover) then 2.0 else 1.0) * wobbleAt(proxies[i].position.x)
    ensures forall i :: 0 <= i < |proxies| ==>
      next[i] == IdleStep(proxies[i], poses[i], hover, selectedId, wobbleAt(proxies[i].position.x))
  {
    next := [];
    var i := 0;
    while i < |proxies|
      invariant 0 <= i <= |proxies| && |next| == i
      invariant forall j :: 0 <= j < i ==>
        next[j] == IdleStep(proxies[j], poses[j], hover, selectedId, wobbleAt(proxies[j].position.x))
    {
      next := next + [IdleStep(proxies[i], poses[i], hover, selectedId, wobbleAt(proxies[i].position.x))];
      i := i + 1;
    }
  }

  // ---------------------------------------------------------------------------
  // Outline and label

  datatype OutlineShape = BoxOutline(side: real) | CapsuleOutline(radius: real, length: real) | SphereOutline(radius: real)

  datatype Outline = Outline(shape: OutlineShape, color: string)

  const AccentColor: string := "#6366f1"
  const HoverColor: string := "white"

  /** The wireframe highlight drawn over a proxy, if any. */
  function OutlineFor(p: Proxy, hover: Option<string>, selectedId: Option<string>): (r: Option<Outline>)
    ensures r.Some? <==> !IsEnclosingId(p.item.id) && (IsHovered(p, hover) || IsSelected(p, selectedId))
    ensures r.Some? ==> (r.value.color == AccentColor <==> IsSelected(p, selectedId))
    ensures r.Some? && !IsSelected(p, selectedId) ==> r.value.color == HoverColor
    ensures r.Some? ==> (r.value.shape.BoxOutline? <==> p.item.shapeType == RoundedBox)
    ensures r.Some? ==> (r.value.shape.CapsuleOutline? <==> p.item.shapeType != RoundedBox && p.item.id == MitochondriaId)
  {
    if IsEnclosingId(p.item.id) || !(IsHovered(p, hover) || IsSelected(p, selectedId)) then None
    else
      var shape :=
        if p.item.shapeType == RoundedBox then BoxOutline(1.02)
        else if p.item.id == MitochondriaId then CapsuleOutline(0.42, 1.22)
        else SphereOutline(1.05);
      Some(Outline(shape, if IsSelected(p, selectedId) then AccentColor else HoverColor))
  }

  /** In the scene, only the vacuole can ever show a box outline, and every
      mitochondria proxy (primary or decorative) shows a capsule. */
  lemma BoxOutlineOnlyOnVacuole(ps: seq<Proxy>, hover: Option<string>, selectedId: Option<string>)
    requires SceneShape(ps)
    ensures forall i :: 0 <= i < |ps| && OutlineFor(ps[i], hover, selectedId).Some? ==>
      (OutlineFor(ps[i], hover, selectedId).value.shape.BoxOutline? <==> ps[i].item.id == VacuoleId)
    ensures forall i :: 0 <= i < |ps| && OutlineFor(ps[i], hover, selectedId).Some? ==>
      (OutlineFor(ps[i], hover, selectedId).value.shape.CapsuleOutline? <==> ps[i].item.id == MitochondriaId)
  {
    RoundedBoxRecords();
    forall i | 0 <= i < |ps|
      ensures ps[i].item.shapeType == RoundedBox <==> ps[i].item.id in {CellWallId, CellMembraneId, VacuoleId}
    {
      var k := if i < 9 then i else if i < 12 then 6 else 7;
      assert ps[i].item == Catalog[k];
    }
  }

  /** A floating name tag. An unemphasized tag is rendered fully transparent,
      so `emphasized` means the tag is visible. */
  datatype Label = Label(text: string, emphasized: bool)

  /** The floating name tag: never on decorative copies, on enclosing records
      only while selected; the text is the first word of the name. */
  function LabelFor(p: Proxy, hover: Option<string>, selectedId: Option<string>): (r: Option<Label>)
    ensures r.Some? <==> !p.decorative && (!IsEnclosingId(p.item.id) || IsSelected(p, selectedId))
    ensures r.Some? ==> r.value.text == FirstWord(p.item.name)
    ensures r.Some? ==> r.value.text <= p.item.name && ' ' !in r.value.text
    ensures r.Some? ==> |r.value.text| == |p.item.name| || p.item.name[|r.value.text|] == ' '
    ensures r.Some? ==> (r.value.emphasized <==> IsHovered(p, hover) || IsSelected(p, selectedId))
  {
    if !p.decorative && (!IsEnclosingId(p.item.id) || IsSelected(p, selectedId)) then
      Some(Label(FirstWord(p.item.name), IsHovered(p, hover) || IsSelected(p, selectedId)))
    else None
  }

  /** The label shows the Chinese name that precedes the English gloss. */
  lemma MitochondriaLabel(ps: seq<Proxy>, hover: Option<string>, selectedId: Option<string>)
    requires SceneShape(ps)
    ensures LabelFor(ps[7], hover, selectedId).Some?
    ensures LabelFor(ps[7], hover, selectedId).value.text == "线粒体"
  {
    assert ps[7].item.name == "线粒体 (Mitochondria)";
    FirstWordUnique(ps[7].item.name, "线粒体");
  }

  // ---------------------------------------------------------------------------
  // Camera

  datatype LookAt = LookAt(eye: Vec3, target: Vec3)

  const MinDistance: real := 4.0
  const MaxDistance: real := 25.0
  const FocusDistance: real := 6.0

  const Overview: LookAt := LookAt(Vec3(0.0, 0.0, 16.0), Origin)
  const EnclosingView: LookAt := LookAt(Vec3(0.0, 0.0, 18.0), Origin)

  /** The `setLookAt` call made when `selectedId` changes, or None when the
      camera is left alone (an id the catalog does not know). */
  function CameraFor(catalog: seq<Organelle>, selectedId: Option<string>): (r: Option<LookAt>)
    ensures !Truthy(selectedId) ==> r == Some(Overview)
    ensures Truthy(selectedId) ==> (r.None? <==> Find(catalog, selectedId.value).None?)
    ensures Truthy(selectedId) && IsEnclosingId(selectedId.value) && Find(catalog, selectedId.value).Some?
      ==> r == Some(EnclosingView)
    ensures Truthy(selectedId) && !IsEnclosingId(selectedId.value) && Find(catalog, selectedId.value).Some?
      ==> r.Some? && r.value.target == Find(catalog, selectedId.value).value.position3d
    ensures r.Some? ==> r.value.eye.x == r.value.target.x && r.value.eye.y == r.value.target.y
    ensures r.Some? ==> MinDistance <= r.value.eye.z - r.value.target.z <= MaxDistance
  {
    if Truthy(selectedId) then
      match Find(catalog, selectedId.value)
      case None => None
      case Some(item) =>
        if IsEnclosingId(item.id) then Some(EnclosingView)
        else
          var p := item.position3d;
          Some(LookAt(Vec3(p.x, p.y, p.z + FocusDistance), p))
    else Some(Overview)
  }

  /** Focusing a catalog record that is not enclosing puts the eye exactly the
      focus distance in front of it, looking at it. */
  lemma FocusFramesRecord(i: int)
    requires 0 <= i < |Catalog| && !IsEnclosingId(Catalog[i].id)
    ensures var p := Catalog[i].position3d;
      CameraFor(Catalog, Some(Catalog[i].id)) == Some(LookAt(Vec3(p.x, p.y, p.z + FocusDistance), p))
  {
    CatalogIdsUnique();
    FindAtIndex(Catalog, i);
  }

  /** Focusing the mitochondria puts the eye at (2.5, -3.5, 6.8). */
  lemma FocusMitochondria()
    ensures CameraFor(Catalog, Some(MitochondriaId)) == Some(LookAt(Vec3(2.5, -3.5, 6.8), Vec3(2.5, -3.5, 0.8)))
  {
    MitochondriaRecord();
  }

  // ---------------------------------------------------------------------------
  // The map's back control

  /** The round back button over the map exists only while `selectedId` is
      truthy, and reports the empty object rather than clearing. */
  function BackControl(selectedId: Option<string>): (r: Option<Report>)
    ensures r.Some? <==> Truthy(selectedId)
    ensures r.Some? ==> r.value == Blank
  {
    if Truthy(selectedId) then Some(Blank) else None
  }
}
