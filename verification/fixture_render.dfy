/**
 * The attribute dispatch of `DMX_Fixture.render`: which fixture updates fire
 * for the current DMX values, with which arguments and defaults. The updates
 * themselves (colour, pan/tilt, zoom and dimmer arithmetic on Blender
 * objects) are floating point and are returned as an ordered plan.
 */
module FixtureRender {
  import opened Wrappers
  import Text
  import opened DmxData
  import opened Fixture

  /** The RGB components seen so far for one geometry (`mixing[geometry]`). */
  datatype Mix = Mix(r: Option<int>, g: Option<int>, b: Option<int>)

  const NoMix := Mix(None, None, None)

  /** The locals of `render` after walking some channels: the last value of
      each attribute, and the RGB mixing per geometry as an insertion-ordered
      dictionary (`geometries` in first-seen order, `mix` the entries). */
  datatype Scan = Scan(
    shutter: Option<int>, dimmer: Option<int>,
    c: Option<int>, m: Option<int>, y: Option<int>,
    pan: Option<int>, tilt: Option<int>, zoom: Option<int>,
    geometries: seq<string>, mix: map<string, Mix>)

  const EmptyScan := Scan(None, None, None, None, None, None, None, None, [], map[])

  /** The mixing entry of a geometry, all components absent if it has none. */
  function MixOf(s: Scan, geometry: string): Mix {
    if geometry in s.mix then s.mix[geometry] else NoMix
  }

  /** One iteration of the channel loop of `render`. */
  function ScanStep(s: Scan, ch: Channel, v: int): (r: Scan)
    ensures r.mix.Keys == s.mix.Keys + {ch.geometry}
  {
    var s1 := if ch.geometry in s.mix then s
              else s.(geometries := s.geometries + [ch.geometry], mix := s.mix[ch.geometry := NoMix]);
    var mx := s1.mix[ch.geometry];
    if ch.id == "Dimmer" then s1.(dimmer := Some(v))
    else if ch.id == "Shutter1" then s1.(shutter := Some(v))
    else if ch.id == "ColorAdd_R" then s1.(mix := s1.mix[ch.geometry := mx.(r := Some(v))])
    else if ch.id == "ColorAdd_G" then s1.(mix := s1.mix[ch.geometry := mx.(g := Some(v))])
    else if ch.id == "ColorAdd_B" then s1.(mix := s1.mix[ch.geometry := mx.(b := Some(v))])
    else if ch.id == "ColorSub_C" then s1.(c := Some(v))
    else if ch.id == "ColorSub_M" then s1.(m := Some(v))
    else if ch.id == "ColorSub_Y" then s1.(y := Some(v))
    else if ch.id == "Pan" then s1.(pan := Some(v))
    else if ch.id == "Tilt" then s1.(tilt := Some(v))
    else if ch.id == "Zoom" then s1.(zoom := Some(v))
    else s1
  }

  /** The channel loop of `render` over the first `n` channels. */
  function ScanChannels(chs: seq<Channel>, data: seq<int>, n: nat): (r: Scan)
    requires |data| == |chs| && n <= |chs|
    ensures forall g :: g in r.mix <==> exists i :: 0 <= i < n && chs[i].geometry == g
  {
    if n == 0 then EmptyScan else ScanStep(ScanChannels(chs, data, n - 1), chs[n - 1], data[n - 1])
  }

  // ---------------------------------------------------------------------
  // Reference: "the value of the last matching channel"
  // ---------------------------------------------------------------------

  /** The channel carries attribute `attr`, and, when `geometry` is given,
      belongs to that geometry. */
  predicate Hits(ch: Channel, attr: string, geometry: Option<string>) {
    ch.id == attr && (geometry.None? || ch.geometry == geometry.value)
  }

  /** `o` is the value of the last of the first `n` channels that hits, or
      `None` when none does. */
  ghost predicate IsLast(chs: seq<Channel>, data: seq<int>, n: nat, attr: string, geometry: Option<string>, o: Option<int>)
    requires |data| == |chs| && n <= |chs|
  {
    && (o.None? <==> forall i :: 0 <= i < n ==> !Hits(chs[i], attr, geometry))
    && (o.Some? ==> exists i :: 0 <= i < n && Hits(chs[i], attr, geometry) && data[i] == o.value
                              && forall j :: i < j < n ==> !Hits(chs[j], attr, geometry))
  }

  /** What one channel does to a tracked attribute. */
  function Track(o: Option<int>, ch: Channel, v: int, attr: string, geometry: Option<string>): Option<int> {
    if Hits(ch, attr, geometry) then Some(v) else o
  }

  /** Tracking one more channel keeps the "last matching value" meaning. */
  lemma TrackStep(chs: seq<Channel>, data: seq<int>, n: nat, attr: string, geometry: Option<string>, o: Option<int>)
    requires |data| == |chs| && n < |chs|
    requires IsLast(chs, data, n, attr, geometry, o)
    ensures IsLast(chs, data, n + 1, attr, geometry, Track(o, chs[n], data[n], attr, geometry))
  {
    if !Hits(chs[n], attr, geometry) && o.Some? {
      var i :| 0 <= i < n && Hits(chs[i], attr, geometry) && data[i] == o.value
               && forall j :: i < j < n ==> !Hits(chs[j], attr, geometry);
      assert forall j :: i < j < n + 1 ==> !Hits(chs[j], attr, geometry);
    }
  }

  /** The step is the attribute-wise `Track` (the `elif` chain compares the
      id against distinct names, so at most one branch can match). */
  lemma ScanStepTracks(s: Scan, ch: Channel, v: int)
    ensures var t := ScanStep(s, ch, v);
      && t.dimmer == Track(s.dimmer, ch, v, "Dimmer", None)
      && t.shutter == Track(s.shutter, ch, v, "Shutter1", None)
      && t.c == Track(s.c, ch, v, "ColorSub_C", None)
      && t.m == Track(s.m, ch, v, "ColorSub_M", None)
      && t.y == Track(s.y, ch, v, "ColorSub_Y", None)
      && t.pan == Track(s.pan, ch, v, "Pan", None)
      && t.tilt == Track(s.tilt, ch, v, "Tilt", None)
      && t.zoom == Track(s.zoom, ch, v, "Zoom", None)
      && (forall g :: g in t.mix <==> g in s.mix || g == ch.geometry)
      && t.geometries == if ch.geometry in s.mix then s.geometries else s.geometries + [ch.geometry]
  {
    var id := ch.id;
    if id == "Dimmer" {
    } else if id == "Shutter1" {
    } else if id == "ColorAdd_R" {
    } else if id == "ColorAdd_G" {
    } else if id == "ColorAdd_B" {
    } else if id == "ColorSub_C" {
      assert id[9] == 'C';
    } else if id == "ColorSub_M" {
      assert id[9] == 'M';
    } else if id == "ColorSub_Y" {
      assert id[9] == 'Y';
    } else if id == "Pan" {
    } else if id == "Tilt" {
      assert id[0] == 'T';
    } else if id == "Zoom" {
      assert id[0] == 'Z';
    }
  }

  /** The step tracks each geometry's RGB components the same way. */
  lemma ScanStepTracksMix(s: Scan, ch: Channel, v: int, g: string)
    ensures var t := ScanStep(s, ch, v);
      && MixOf(t, g).r == Track(MixOf(s, g).r, ch, v, "ColorAdd_R", Some(g))
      && MixOf(t, g).g == Track(MixOf(s, g).g, ch, v, "ColorAdd_G", Some(g))
      && MixOf(t, g).b == Track(MixOf(s, g).b, ch, v, "ColorAdd_B", Some(g))
  {
  }

  /** Every geometry in the scan's dictionary belongs to a scanned channel and
      vice versa; the ordered key list lists each key exactly once. */
  ghost predicate GeometriesWellFormed(chs: seq<Channel>, n: nat, s: Scan)
    requires n <= |chs|
  {
    && (forall g :: g in s.mix <==> exists i :: 0 <= i < n && chs[i].geometry == g)
    && (forall k :: 0 <= k < |s.geometries| ==> s.geometries[k] in s.mix)
    && (forall g :: g in s.mix ==> g in s.geometries)
    && (forall k, l :: 0 <= k < l < |s.geometries| ==> s.geometries[k] != s.geometries[l])
  }

  /** The channel loop computes, for every attribute, the value of the last
      channel carrying it (per geometry for the RGB components), and a
      dictionary holding exactly the channels' geometries. */
  lemma {:induction false} ScanIsLastValue(chs: seq<Channel>, data: seq<int>, n: nat)
    requires |data| == |chs| && n <= |chs|
    ensures var s := ScanChannels(chs, data, n);
      && IsLast(chs, data, n, "Dimmer", None, s.dimmer)
      && IsLast(chs, data, n, "Shutter1", None, s.shutter)
      && IsLast(chs, data, n, "ColorSub_C", None, s.c)
      && IsLast(chs, data, n, "ColorSub_M", None, s.m)
      && IsLast(chs, data, n, "ColorSub_Y", None, s.y)
      && IsLast(chs, data, n, "Pan", None, s.pan)
      && IsLast(chs, data, n, "Tilt", None, s.tilt)
      && IsLast(chs, data, n, "Zoom", None, s.zoom)
      && (forall g :: IsLast(chs, data, n, "ColorAdd_R", Some(g), MixOf(s, g).r))
      && (forall g :: IsLast(chs, data, n, "ColorAdd_G", Some(g), MixOf(s, g).g))
      && (forall g :: IsLast(chs, data, n, "ColorAdd_B", Some(g), MixOf(s, g).b))
      && GeometriesWellFormed(chs, n, s)
  {
    if n > 0 {
      var k := n - 1;
      ScanIsLastValue(chs, data, k);
      var s := ScanChannels(chs, data, k);
      var ch, v := chs[k], data[k];
      ScanStepTracks(s, ch, v);
      TrackStep(chs, data, k, "Dimmer", None, s.dimmer);
      TrackStep(chs, data, k, "Shutter1", None, s.shutter);
      TrackStep(chs, data, k, "ColorSub_C", None, s.c);
      TrackStep(chs, data, k, "ColorSub_M", None, s.m);
      TrackStep(chs, data, k, "ColorSub_Y", None, s.y);
      TrackStep(chs, data, k, "Pan", None, s.pan);
      TrackStep(chs, data, k, "Tilt", None, s.tilt);
      TrackStep(chs, data, k, "Zoom", None, s.zoom);
      forall g
        ensures IsLast(chs, data, n, "ColorAdd_R", Some(g), MixOf(ScanChannels(chs, data, n), g).r)
        ensures IsLast(chs, data, n, "ColorAdd_G", Some(g), MixOf(ScanChannels(chs, data, n), g).g)
        ensures IsLast(chs, data, n, "ColorAdd_B", Some(g), MixOf(ScanChannels(chs, data, n), g).b)
      {
        ScanStepTracksMix(s, ch, v, g);
        TrackStep(chs, data, k, "ColorAdd_R", Some(g), MixOf(s, g).r);
        TrackStep(chs, data, k, "ColorAdd_G", Some(g), MixOf(s, g).g);
        TrackStep(chs, data, k, "ColorAdd_B", Some(g), MixOf(s, g).b);
      }
      GeometriesStep(chs, data, k);
    }
  }

  lemma GeometriesStep(chs: seq<Channel>, data: seq<int>, k: nat)
    requires |data| == |chs| && k < |chs|
    requires GeometriesWellFormed(chs, k, ScanChannels(chs, data, k))
    ensures GeometriesWellFormed(chs, k + 1, ScanChannels(chs, data, k + 1))
  {
    var s := ScanChannels(chs, data, k);
    ScanStepTracks(s, chs[k], data[k]);
  }

  // ---------------------------------------------------------------------
  // The update plan
  // ---------------------------------------------------------------------

  /** The fixture updates `render` calls, in call order. */
  datatype Update =
    | UpdateRgb(r: int, g: int, b: int, geometry: Option<string>)
    | UpdateCmy(c: int, m: int, y: int)
    | UpdatePanTilt(pan: int, tilt: int)
    | UpdateZoom(zoom: int)
    | UpdateShutterDimmer(shutter: int, dimmer: Option<int>)

  /** Position of each kind of update in the plan. */
  function Rank(u: Update): nat {
    match u
    case UpdateRgb(_, _, _, _) => 0
    case UpdateCmy(_, _, _) => 1
    case UpdatePanTilt(_, _) => 2
    case UpdateZoom(_) => 3
    case UpdateShutterDimmer(_, _) => 4
  }

  /** Some name in `names` contains `sub`. */
  function AnyContains(names: seq<string>, sub: string): (r: bool)
    ensures r <==> exists j :: 0 <= j < |names| && Text.Contains(names[j], sub)
  {
    if names == [] then false
    else Text.Contains(names[0], sub) || AnyContains(names[1..], sub)
  }

  /** `light_object_for_geometry_exists`: some geometry of the mixing
      dictionary occurs in the name of a light's data block or of an emitter
      material. */
  function LightObjectForGeometryExists(geometries: seq<string>, lightNames: seq<string>, emitterNames: seq<string>): (r: bool)
    ensures r <==> exists i :: 0 <= i < |geometries|
                     && (AnyContains(lightNames, geometries[i]) || AnyContains(emitterNames, geometries[i]))
  {
    if geometries == [] then false
    else
      var g := geometries[0];
      AnyContains(lightNames, g) || AnyContains(emitterNames, g)
      || LightObjectForGeometryExists(geometries[1..], lightNames, emitterNames)
  }

  predicate Complete(mx: Mix) {
    mx.r.Some? && mx.g.Some? && mx.b.Some?
  }

  /** The colour update for one geometry, addressed to it only when the
      fixture is colour-mixed per geometry. */
  function RgbFor(s: Scan, g: string, perGeometry: bool): Update
    requires Complete(MixOf(s, g))
  {
    var mx := MixOf(s, g);
    UpdateRgb(mx.r.value, mx.g.value, mx.b.value, if perGeometry then Some(g) else None)
  }

  /** The colour loop of `render` over the mixing dictionary in key order:
      one update per geometry whose three components were all seen. */
  function RgbUpdates(s: Scan, geometries: seq<string>, perGeometry: bool): (r: seq<Update>)
    ensures |r| <= |geometries|
    ensures forall i :: 0 <= i < |r| ==> r[i].UpdateRgb?
    ensures forall u :: u in r <==>
      exists k :: 0 <= k < |geometries| && Complete(MixOf(s, geometries[k])) && u == RgbFor(s, geometries[k], perGeometry)
  {
    if geometries == [] then []
    else
      var g := geometries[0];
      var rest := RgbUpdates(s, geometries[1..], perGeometry);
      assert forall k :: 1 <= k < |geometries| ==> geometries[k] == geometries[1..][k - 1];
      if Complete(MixOf(s, g)) then [RgbFor(s, g, perGeometry)] + rest else rest
  }

  /** `r` holds, in order, the colour updates of the complete geometries at
      positions `idx`. */
  predicate UpdatesAt(s: Scan, geometries: seq<string>, perGeometry: bool, r: seq<Update>, idx: seq<int>) {
    && |idx| == |r|
    && forall j :: 0 <= j < |idx| ==>
         0 <= idx[j] < |geometries| && Complete(MixOf(s, geometries[idx[j]]))
         && r[j] == RgbFor(s, geometries[idx[j]], perGeometry)
  }

  predicate Increasing(idx: seq<int>) {
    forall j, k :: 0 <= j < k < |idx| ==> idx[j] < idx[k]
  }

  /** Every complete geometry's position is listed. */
  predicate CoversComplete(s: Scan, geometries: seq<string>, idx: seq<int>) {
    forall k :: 0 <= k < |geometries| && Complete(MixOf(s, geometries[k])) ==> k in idx
  }

  /** `idx` lists, in increasing order, exactly the positions of the
      geometries whose three components were all seen, and `r` holds their
      colour updates in that order. */
  predicate RgbIndexing(s: Scan, geometries: seq<string>, perGeometry: bool, r: seq<Update>, idx: seq<int>) {
    UpdatesAt(s, geometries, perGeometry, r, idx) && Increasing(idx) && CoversComplete(s, geometries, idx)
  }

  /** Every position moved one place on. */
  function Shift(idx: seq<int>): (r: seq<int>)
    ensures |r| == |idx| && forall j :: 0 <= j < |idx| ==> r[j] == idx[j] + 1
  {
    seq(|idx|, j requires 0 <= j < |idx| => idx[j] + 1)
  }

  lemma ShiftIncreasing(idx: seq<int>, first: bool)
    requires Increasing(idx) && forall j :: 0 <= j < |idx| ==> idx[j] >= 0
    ensures Increasing(if first then [0] + Shift(idx) else Shift(idx))
  {
    var r := if first then [0] + Shift(idx) else Shift(idx);
    forall j, k | 0 <= j < k < |r|
      ensures r[j] < r[k]
    {
      if first {
        if j > 0 { assert r[j] == idx[j - 1] + 1; }
        assert r[k] == idx[k - 1] + 1;
      }
    }
  }

  lemma ShiftUpdatesAt(s: Scan, geometries: seq<string>, perGeometry: bool, rest: seq<Update>, tailIdx: seq<int>)
    requires geometries != [] && UpdatesAt(s, geometries[1..], perGeometry, rest, tailIdx)
    ensures UpdatesAt(s, geometries, perGeometry, rest, Shift(tailIdx))
  {
    var idx := Shift(tailIdx);
    forall j | 0 <= j < |idx|
      ensures 0 <= idx[j] < |geometries| && geometries[idx[j]] == geometries[1..][tailIdx[j]]
    {
    }
  }

  lemma ShiftCovers(s: Scan, geometries: seq<string>, tailIdx: seq<int>, first: bool)
    requires geometries != [] && CoversComplete(s, geometries[1..], tailIdx)
    requires first <==> Complete(MixOf(s, geometries[0]))
    ensures CoversComplete(s, geometries, if first then [0] + Shift(tailIdx) else Shift(tailIdx))
  {
    var idx := if first then [0] + Shift(tailIdx) else Shift(tailIdx);
    var tail := geometries[1..];
    forall k | 0 <= k < |geometries| && Complete(MixOf(s, geometries[k]))
      ensures k in idx
    {
      if k > 0 {
        assert geometries[k] == tail[k - 1];
        var j :| 0 <= j < |tailIdx| && tailIdx[j] == k - 1;
        if first { assert idx[j + 1] == k; } else { assert idx[j] == k; }
      }
    }
  }

  /** The colour loop over a dictionary whose first geometry is complete. */
  lemma RgbIndexingTake(s: Scan, geometries: seq<string>, perGeometry: bool, rest: seq<Update>, tailIdx: seq<int>)
    requires geometries != [] && Complete(MixOf(s, geometries[0]))
    requires RgbIndexing(s, geometries[1..], perGeometry, rest, tailIdx)
    ensures RgbIndexing(s, geometries, perGeometry, [RgbFor(s, geometries[0], perGeometry)] + rest, [0] + Shift(tailIdx))
  {
    ShiftUpdatesAt(s, geometries, perGeometry, rest, tailIdx);
    ShiftCovers(s, geometries, tailIdx, true);
    ShiftIncreasing(tailIdx, true);
    var idx := [0] + Shift(tailIdx);
    var r := [RgbFor(s, geometries[0], perGeometry)] + rest;
    forall j | 0 <= j < |idx|
      ensures 0 <= idx[j] < |geometries| && Complete(MixOf(s, geometries[idx[j]]))
      ensures r[j] == RgbFor(s, geometries[idx[j]], perGeometry)
    {
      if j > 0 { assert idx[j] == Shift(tailIdx)[j - 1] && r[j] == rest[j - 1]; }
    }
  }

  /** The colour loop over a dictionary whose first geometry is incomplete. */
  lemma RgbIndexingSkip(s: Scan, geometries: seq<string>, perGeometry: bool, rest: seq<Update>, tailIdx: seq<int>)
    requires geometries != [] && !Complete(MixOf(s, geometries[0]))
    requires RgbIndexing(s, geometries[1..], perGeometry, rest, tailIdx)
    ensures RgbIndexing(s, geometries, perGeometry, rest, Shift(tailIdx))
  {
    ShiftUpdatesAt(s, geometries, perGeometry, rest, tailIdx);
    ShiftCovers(s, geometries, tailIdx, false);
    ShiftIncreasing(tailIdx, false);
  }

  /** The colour loop emits one update per complete geometry, in the
      dictionary's key order: with no geometry named, the last of them
      decides the colour of every light. */
  lemma {:induction false} RgbUpdatesInOrder(s: Scan, geometries: seq<string>, perGeometry: bool)
    ensures exists idx :: RgbIndexing(s, geometries, perGeometry, RgbUpdates(s, geometries, perGeometry), idx)
  {
    var r := RgbUpdates(s, geometries, perGeometry);
    if geometries == [] {
      assert RgbIndexing(s, geometries, perGeometry, r, []);
    } else {
      var rest := RgbUpdates(s, geometries[1..], perGeometry);
      RgbUpdatesInOrder(s, geometries[1..], perGeometry);
      var tailIdx :| RgbIndexing(s, geometries[1..], perGeometry, rest, tailIdx);
      if Complete(MixOf(s, geometries[0])) {
        RgbIndexingTake(s, geometries, perGeometry, rest, tailIdx);
        assert r == [RgbFor(s, geometries[0], perGeometry)] + rest;
        assert RgbIndexing(s, geometries, perGeometry, r, [0] + Shift(tailIdx));
      } else {
        RgbIndexingSkip(s, geometries, perGeometry, rest, tailIdx);
        assert r == rest;
        assert RgbIndexing(s, geometries, perGeometry, r, Shift(tailIdx));
      }
    }
  }

  /** Each update outranks all updates before it, and none is a colour update. */
  predicate StrictlyRanked(r: seq<Update>) {
    && (forall i :: 0 <= i < |r| ==> Rank(r[i]) > 0)
    && (forall i, j :: 0 <= i < j < |r| ==> Rank(r[i]) < Rank(r[j]))
  }

  /** The call of one update when its condition holds. */
  function When(c: bool, u: Update): seq<Update> {
    if c then [u] else []
  }

  lemma AppendRanked(a: seq<Update>, c: bool, u: Update)
    requires StrictlyRanked(a) && Rank(u) > 0
    requires forall i :: 0 <= i < |a| ==> Rank(a[i]) < Rank(u)
    ensures StrictlyRanked(a + When(c, u))
    ensures forall i :: 0 <= i < |a + When(c, u)| ==> Rank((a + When(c, u))[i]) <= Rank(u)
  {
    var r := a + When(c, u);
    if c {
      forall i | 0 <= i < |r|
        ensures Rank(r[i]) > 0
      {
        if i < |a| { assert r[i] == a[i]; }
      }
      forall i, j | 0 <= i < j < |r|
        ensures Rank(r[i]) < Rank(r[j])
      {
        assert r[i] == a[i];
        if j < |a| { assert r[j] == a[j]; }
      }
    } else {
      assert r == a;
    }
  }

  /** The updates after the colour loop. */
  function OtherUpdates(s: Scan): (r: seq<Update>)
    ensures |r| <= 4
    ensures forall i :: 0 <= i < |r| ==> !r[i].UpdateRgb?
  {
    When(s.c.Some? && s.m.Some? && s.y.Some?, UpdateCmy(s.c.GetOr(0), s.m.GetOr(0), s.y.GetOr(0)))
    + When(s.pan.Some? || s.tilt.Some?, UpdatePanTilt(s.pan.GetOr(191), s.tilt.GetOr(190)))
    + When(s.zoom.Some?, UpdateZoom(s.zoom.GetOr(0)))
    + When(s.shutter.Some? || s.dimmer.Some?, UpdateShutterDimmer(s.shutter.GetOr(0), s.dimmer))
  }

  /** After the colour loop each kind of update is called at most once, in
      the order CMY, pan/tilt, zoom, shutter/dimmer. */
  lemma OtherUpdatesRanked(s: Scan)
    ensures StrictlyRanked(OtherUpdates(s))
  {
    WhenChainRanked(s.c.Some? && s.m.Some? && s.y.Some?, UpdateCmy(s.c.GetOr(0), s.m.GetOr(0), s.y.GetOr(0)),
                    s.pan.Some? || s.tilt.Some?, UpdatePanTilt(s.pan.GetOr(191), s.tilt.GetOr(190)),
                    s.zoom.Some?, UpdateZoom(s.zoom.GetOr(0)),
                    s.shutter.Some? || s.dimmer.Some?, UpdateShutterDimmer(s.shutter.GetOr(0), s.dimmer));
  }

  /** Four conditional calls of increasing rank stay strictly ranked. */
  lemma WhenChainRanked(c1: bool, u1: Update, c2: bool, u2: Update, c3: bool, u3: Update, c4: bool, u4: Update)
    requires 0 < Rank(u1) < Rank(u2) < Rank(u3) < Rank(u4)
    ensures StrictlyRanked(When(c1, u1) + When(c2, u2) + When(c3, u3) + When(c4, u4))
  {
    AppendRanked([], c1, u1);
    assert [] + When(c1, u1) == When(c1, u1);
    AppendRanked(When(c1, u1), c2, u2);
    AppendRanked(When(c1, u1) + When(c2, u2), c3, u3);
    AppendRanked(When(c1, u1) + When(c2, u2) + When(c3, u3), c4, u4);
  }

  /** What the tail of the plan contains. */
  lemma OtherUpdatesMembers(s: Scan, u: Update)
    ensures u in OtherUpdates(s) <==>
      || (s.c.Some? && s.m.Some? && s.y.Some? && u == UpdateCmy(s.c.GetOr(0), s.m.GetOr(0), s.y.GetOr(0)))
      || ((s.pan.Some? || s.tilt.Some?) && u == UpdatePanTilt(s.pan.GetOr(191), s.tilt.GetOr(190)))
      || (s.zoom.Some? && u == UpdateZoom(s.zoom.GetOr(0)))
      || ((s.shutter.Some? || s.dimmer.Some?) && u == UpdateShutterDimmer(s.shutter.GetOr(0), s.dimmer))
  {
  }

  /** The DMX values `render` reads for a fixture. */
  function RenderData(p: Patch, buf: Buffer): (data: seq<int>)
    ensures |data| == |p.channels|
  {
    GetRange(buf, p.universe, p.address, |p.channels|)
  }

  /** The channel loop of `render` over all of a fixture's channels. */
  function RenderScan(p: Patch, buf: Buffer): Scan {
    ScanChannels(p.channels, RenderData(p, buf), |p.channels|)
  }

  /** Colour updates are addressed to their geometry unless the fixture has
      a single geometry or no light or emitter is named after any of them. */
  function PerGeometry(s: Scan, lightNames: seq<string>, emitterNames: seq<string>): bool {
    !(|s.geometries| == 1 || !LightObjectForGeometryExists(s.geometries, lightNames, emitterNames))
  }

  /** `render`: the fixture updates for the current DMX values. The colour
      updates come first, one per geometry, followed by at most one each of
      CMY, pan/tilt, zoom and shutter/dimmer, in that order. */
  function Render(p: Patch, buf: Buffer, lightNames: seq<string>, emitterNames: seq<string>): (plan: seq<Update>)
    ensures forall i, j :: 0 <= i < j < |plan| ==> Rank(plan[i]) <= Rank(plan[j])
    ensures forall i, j :: 0 <= i < j < |plan| && Rank(plan[i]) > 0 ==> Rank(plan[i]) < Rank(plan[j])
  {
    var s := RenderScan(p, buf);
    var rgb := RgbUpdates(s, s.geometries, PerGeometry(s, lightNames, emitterNames));
    var rest := OtherUpdates(s);
    OtherUpdatesRanked(s);
    assert forall i :: |rgb| <= i < |rgb + rest| ==> (rgb + rest)[i] == rest[i - |rgb|];
    rgb + rest
  }

  // ---------------------------------------------------------------------
  // The plan against the channels
  // ---------------------------------------------------------------------

  /** Some channel carries attribute `attr`. */
  ghost predicate Has(chs: seq<Channel>, attr: string) {
    exists i :: 0 <= i < |chs| && chs[i].id == attr
  }

  /** Some channel of geometry `g` carries attribute `attr`. */
  ghost predicate HasIn(chs: seq<Channel>, attr: string, g: string) {
    exists i :: 0 <= i < |chs| && chs[i].id == attr && chs[i].geometry == g
  }

  /** `v` is the value of the last channel carrying `attr`, or `default`
      when no channel carries it. */
  ghost predicate LastOr(chs: seq<Channel>, data: seq<int>, attr: string, v: int, default: int)
    requires |data| == |chs|
  {
    if Has(chs, attr) then IsLast(chs, data, |chs|, attr, None, Some(v)) else v == default
  }

  lemma IsLastHas(chs: seq<Channel>, data: seq<int>, attr: string, o: Option<int>)
    requires |data| == |chs|
    requires IsLast(chs, data, |chs|, attr, None, o)
    ensures o.Some? <==> Has(chs, attr)
    ensures o.Some? ==> LastOr(chs, data, attr, o.value, 0)
  {
    if Has(chs, attr) {
      var i :| 0 <= i < |chs| && chs[i].id == attr;
      assert Hits(chs[i], attr, None);
    }
  }

  lemma IsLastDefault(chs: seq<Channel>, data: seq<int>, attr: string, o: Option<int>, default: int)
    requires |data| == |chs|
    requires IsLast(chs, data, |chs|, attr, None, o)
    ensures LastOr(chs, data, attr, o.GetOr(default), default)
  {
    IsLastHas(chs, data, attr, o);
  }

  /** The non-colour updates of the plan are exactly `OtherUpdates`. */
  lemma RenderOthers(p: Patch, buf: Buffer, lightNames: seq<string>, emitterNames: seq<string>, u: Update)
    ensures var s := RenderScan(p, buf);
      !u.UpdateRgb? ==> (u in Render(p, buf, lightNames, emitterNames) <==>
      || (s.c.Some? && s.m.Some? && s.y.Some? && u == UpdateCmy(s.c.GetOr(0), s.m.GetOr(0), s.y.GetOr(0)))
      || ((s.pan.Some? || s.tilt.Some?) && u == UpdatePanTilt(s.pan.GetOr(191), s.tilt.GetOr(190)))
      || (s.zoom.Some? && u == UpdateZoom(s.zoom.GetOr(0)))
      || ((s.shutter.Some? || s.dimmer.Some?) && u == UpdateShutterDimmer(s.shutter.GetOr(0), s.dimmer)))
  {
    OtherUpdatesMembers(RenderScan(p, buf), u);
  }

  /** The scanned values of the four scalar groups, as last channel values. */
  lemma ScanLastCmy(chs: seq<Channel>, data: seq<int>)
    requires |data| == |chs|
    ensures var s := ScanChannels(chs, data, |chs|);
      && IsLast(chs, data, |chs|, "ColorSub_C", None, s.c)
      && IsLast(chs, data, |chs|, "ColorSub_M", None, s.m)
      && IsLast(chs, data, |chs|, "ColorSub_Y", None, s.y)
  {
    ScanIsLastValue(chs, data, |chs|);
  }

  lemma ScanLastPanTiltZoom(chs: seq<Channel>, data: seq<int>)
    requires |data| == |chs|
    ensures var s := ScanChannels(chs, data, |chs|);
      && IsLast(chs, data, |chs|, "Pan", None, s.pan)
      && IsLast(chs, data, |chs|, "Tilt", None, s.tilt)
      && IsLast(chs, data, |chs|, "Zoom", None, s.zoom)
  {
    ScanIsLastValue(chs, data, |chs|);
  }

  lemma ScanLastShutterDimmer(chs: seq<Channel>, data: seq<int>)
    requires |data| == |chs|
    ensures var s := ScanChannels(chs, data, |chs|);
      && IsLast(chs, data, |chs|, "Shutter1", None, s.shutter)
      && IsLast(chs, data, |chs|, "Dimmer", None, s.dimmer)
  {
    ScanIsLastValue(chs, data, |chs|);
  }

  /** CMY is updated exactly when all three subtractive channels exist, with
      the last value of each. */
  lemma RenderCmy(p: Patch, buf: Buffer, lightNames: seq<string>, emitterNames: seq<string>)
    ensures var plan := Render(p, buf, lightNames, emitterNames);
      && ((exists u :: u in plan && u.UpdateCmy?) <==>
          Has(p.channels, "ColorSub_C") && Has(p.channels, "ColorSub_M") && Has(p.channels, "ColorSub_Y"))
      && forall u :: u in plan && u.UpdateCmy? ==>
           && IsLast(p.channels, RenderData(p, buf), |p.channels|, "ColorSub_C", None, Some(u.c))
           && IsLast(p.channels, RenderData(p, buf), |p.channels|, "ColorSub_M", None, Some(u.m))
           && IsLast(p.channels, RenderData(p, buf), |p.channels|, "ColorSub_Y", None, Some(u.y))
  {
    var chs, data := p.channels, RenderData(p, buf);
    var s := RenderScan(p, buf);
    var plan := Render(p, buf, lightNames, emitterNames);
    ScanLastCmy(chs, data);
    IsLastHas(chs, data, "ColorSub_C", s.c);
    IsLastHas(chs, data, "ColorSub_M", s.m);
    IsLastHas(chs, data, "ColorSub_Y", s.y);
    forall u: Update | u.UpdateCmy?
      ensures u in plan <==> s.c.Some? && s.m.Some? && s.y.Some? && u == UpdateCmy(s.c.GetOr(0), s.m.GetOr(0), s.y.GetOr(0))
    {
      RenderOthers(p, buf, lightNames, emitterNames, u);
    }
    if s.c.Some? && s.m.Some? && s.y.Some? {
      assert UpdateCmy(s.c.GetOr(0), s.m.GetOr(0), s.y.GetOr(0)) in plan;
    }
  }

  /** Pan/tilt is updated exactly when a Pan or a Tilt channel exists; a
      missing pan reads 191 and a missing tilt 190. */
  lemma RenderPanTilt(p: Patch, buf: Buffer, lightNames: seq<string>, emitterNames: seq<string>)
    ensures var plan := Render(p, buf, lightNames, emitterNames);
      && ((exists u :: u in plan && u.UpdatePanTilt?) <==> Has(p.channels, "Pan") || Has(p.channels, "Tilt"))
      && forall u :: u in plan && u.UpdatePanTilt? ==>
           && LastOr(p.channels, RenderData(p, buf), "Pan", u.pan, 191)
           && LastOr(p.channels, RenderData(p, buf), "Tilt", u.tilt, 190)
  {
    var chs, data := p.channels, RenderData(p, buf);
    var s := RenderScan(p, buf);
    var plan := Render(p, buf, lightNames, emitterNames);
    ScanLastPanTiltZoom(chs, data);
    IsLastHas(chs, data, "Pan", s.pan);
    IsLastHas(chs, data, "Tilt", s.tilt);
    IsLastDefault(chs, data, "Pan", s.pan, 191);
    IsLastDefault(chs, data, "Tilt", s.tilt, 190);
    forall u: Update | u.UpdatePanTilt?
      ensures u in plan <==> (s.pan.Some? || s.tilt.Some?) && u == UpdatePanTilt(s.pan.GetOr(191), s.tilt.GetOr(190))
    {
      RenderOthers(p, buf, lightNames, emitterNames, u);
    }
    if s.pan.Some? || s.tilt.Some? {
      assert UpdatePanTilt(s.pan.GetOr(191), s.tilt.GetOr(190)) in plan;
    }
  }

  /** Zoom is updated exactly when a Zoom channel exists, with its last value. */
  lemma RenderZoom(p: Patch, buf: Buffer, lightNames: seq<string>, emitterNames: seq<string>)
    ensures var plan := Render(p, buf, lightNames, emitterNames);
      && ((exists u :: u in plan && u.UpdateZoom?) <==> Has(p.channels, "Zoom"))
      && forall u :: u in plan && u.UpdateZoom? ==>
           IsLast(p.channels, RenderData(p, buf), |p.channels|, "Zoom", None, Some(u.zoom))
  {
    var chs, data := p.channels, RenderData(p, buf);
    var s := RenderScan(p, buf);
    var plan := Render(p, buf, lightNames, emitterNames);
    ScanLastPanTiltZoom(chs, data);
    IsLastHas(chs, data, "Zoom", s.zoom);
    forall u: Update | u.UpdateZoom?
      ensures u in plan <==> s.zoom.Some? && u == UpdateZoom(s.zoom.GetOr(0))
    {
      RenderOthers(p, buf, lightNames, emitterNames, u);
    }
    if s.zoom.Some? {
      assert UpdateZoom(s.zoom.GetOr(0)) in plan;
    }
  }

  /** Shutter/dimmer is updated exactly when a Shutter1 or a Dimmer channel
      exists; a missing shutter reads 0 and a missing dimmer is passed as
      absent. */
  lemma RenderShutterDimmer(p: Patch, buf: Buffer, lightNames: seq<string>, emitterNames: seq<string>)
    ensures var plan := Render(p, buf, lightNames, emitterNames);
      && ((exists u :: u in plan && u.UpdateShutterDimmer?) <==> Has(p.channels, "Shutter1") || Has(p.channels, "Dimmer"))
      && forall u :: u in plan && u.UpdateShutterDimmer? ==>
           && LastOr(p.channels, RenderData(p, buf), "Shutter1", u.shutter, 0)
           && IsLast(p.channels, RenderData(p, buf), |p.channels|, "Dimmer", None, u.dimmer)
  {
    var chs, data := p.channels, RenderData(p, buf);
    var s := RenderScan(p, buf);
    var plan := Render(p, buf, lightNames, emitterNames);
    ScanLastShutterDimmer(chs, data);
    IsLastHas(chs, data, "Shutter1", s.shutter);
    IsLastHas(chs, data, "Dimmer", s.dimmer);
    IsLastDefault(chs, data, "Shutter1", s.shutter, 0);
    forall u: Update | u.UpdateShutterDimmer?
      ensures u in plan <==> (s.shutter.Some? || s.dimmer.Some?) && u == UpdateShutterDimmer(s.shutter.GetOr(0), s.dimmer)
    {
      RenderOthers(p, buf, lightNames, emitterNames, u);
    }
    if s.shutter.Some? || s.dimmer.Some? {
      assert UpdateShutterDimmer(s.shutter.GetOr(0), s.dimmer) in plan;
    }
  }

  // ---------------------------------------------------------------------
  // Colour updates
  // ---------------------------------------------------------------------

  /** All channels belong to one geometry. */
  ghost predicate SingleGeometry(chs: seq<Channel>) {
    forall i, j :: 0 <= i < |chs| && 0 <= j < |chs| ==> chs[i].geometry == chs[j].geometry
  }

  /** Some channel's geometry occurs in a light or emitter name. */
  ghost predicate GeometryNamed(chs: seq<Channel>, lightNames: seq<string>, emitterNames: seq<string>) {
    exists i :: 0 <= i < |chs| && (AnyContains(lightNames, chs[i].geometry) || AnyContains(emitterNames, chs[i].geometry))
  }

  lemma ScanLastMix(chs: seq<Channel>, data: seq<int>, g: string)
    requires |data| == |chs|
    ensures var s := ScanChannels(chs, data, |chs|);
      && IsLast(chs, data, |chs|, "ColorAdd_R", Some(g), MixOf(s, g).r)
      && IsLast(chs, data, |chs|, "ColorAdd_G", Some(g), MixOf(s, g).g)
      && IsLast(chs, data, |chs|, "ColorAdd_B", Some(g), MixOf(s, g).b)
  {
    ScanIsLastValue(chs, data, |chs|);
  }

  lemma ScanGeometries(chs: seq<Channel>, data: seq<int>)
    requires |data| == |chs|
    ensures GeometriesWellFormed(chs, |chs|, ScanChannels(chs, data, |chs|))
  {
    ScanIsLastValue(chs, data, |chs|);
  }

  lemma IsLastHasIn(chs: seq<Channel>, data: seq<int>, attr: string, g: string, o: Option<int>)
    requires |data| == |chs|
    requires IsLast(chs, data, |chs|, attr, Some(g), o)
    ensures o.Some? <==> HasIn(chs, attr, g)
  {
    if HasIn(chs, attr, g) {
      var i :| 0 <= i < |chs| && chs[i].id == attr && chs[i].geometry == g;
      assert Hits(chs[i], attr, Some(g));
    }
  }

  lemma FirstTwoEqual(xs: seq<string>, x: string)
    requires |xs| >= 2
    requires forall k :: 0 <= k < |xs| ==> xs[k] == x
    ensures xs[0] == xs[1]
  {
  }

  /** The mixing dictionary has one key exactly when all (and at least one)
      channels share a geometry. */
  lemma GeometryCount(chs: seq<Channel>, data: seq<int>)
    requires |data| == |chs| && |chs| > 0
    ensures |ScanChannels(chs, data, |chs|).geometries| == 1 <==> SingleGeometry(chs)
  {
    var s := ScanChannels(chs, data, |chs|);
    ScanGeometries(chs, data);
    var g0 := chs[0].geometry;
    assert g0 in s.mix;
    if |s.geometries| == 1 {
      forall i | 0 <= i < |chs|
        ensures chs[i].geometry == g0
      {
        assert chs[i].geometry in s.mix;
      }
    }
    if SingleGeometry(chs) {
      assert g0 in s.geometries;
      forall k | 0 <= k < |s.geometries|
        ensures s.geometries[k] == g0
      {
        assert s.geometries[k] in s.mix;
      }
      if |s.geometries| > 1 {
        FirstTwoEqual(s.geometries, g0);
        assert false;
      }
    }
  }

  /** Looking for the dictionary's geometries in the names is looking for the
      channels' geometries. */
  lemma GeometryNamedIff(chs: seq<Channel>, data: seq<int>, lightNames: seq<string>, emitterNames: seq<string>)
    requires |data| == |chs|
    ensures LightObjectForGeometryExists(ScanChannels(chs, data, |chs|).geometries, lightNames, emitterNames)
        <==> GeometryNamed(chs, lightNames, emitterNames)
  {
    var s := ScanChannels(chs, data, |chs|);
    ScanGeometries(chs, data);
    if GeometryNamed(chs, lightNames, emitterNames) {
      var i :| 0 <= i < |chs| && (AnyContains(lightNames, chs[i].geometry) || AnyContains(emitterNames, chs[i].geometry));
      assert chs[i].geometry in s.mix;
      var k :| 0 <= k < |s.geometries| && s.geometries[k] == chs[i].geometry;
    }
    if LightObjectForGeometryExists(s.geometries, lightNames, emitterNames) {
      var k :| 0 <= k < |s.geometries|
               && (AnyContains(lightNames, s.geometries[k]) || AnyContains(emitterNames, s.geometries[k]));
      assert s.geometries[k] in s.mix;
    }
  }

  /** Every colour update carries the last R, G and B values of one
      geometry that has all three channels, and names that geometry if it
      names one at all. */
  lemma RenderRgbSound(p: Patch, buf: Buffer, lightNames: seq<string>, emitterNames: seq<string>)
    ensures forall u :: u in Render(p, buf, lightNames, emitterNames) && u.UpdateRgb? ==>
      exists g ::
        && IsLast(p.channels, RenderData(p, buf), |p.channels|, "ColorAdd_R", Some(g), Some(u.r))
        && IsLast(p.channels, RenderData(p, buf), |p.channels|, "ColorAdd_G", Some(g), Some(u.g))
        && IsLast(p.channels, RenderData(p, buf), |p.channels|, "ColorAdd_B", Some(g), Some(u.b))
        && (u.geometry.Some? ==> u.geometry.value == g)
  {
    var chs, data := p.channels, RenderData(p, buf);
    var s := RenderScan(p, buf);
    var pg := PerGeometry(s, lightNames, emitterNames);
    forall u | u in Render(p, buf, lightNames, emitterNames) && u.UpdateRgb?
      ensures exists g ::
        && IsLast(chs, data, |chs|, "ColorAdd_R", Some(g), Some(u.r))
        && IsLast(chs, data, |chs|, "ColorAdd_G", Some(g), Some(u.g))
        && IsLast(chs, data, |chs|, "ColorAdd_B", Some(g), Some(u.b))
        && (u.geometry.Some? ==> u.geometry.value == g)
    {
      assert u in RgbUpdates(s, s.geometries, pg);
      var k :| 0 <= k < |s.geometries| && Complete(MixOf(s, s.geometries[k])) && u == RgbFor(s, s.geometries[k], pg);
      ScanLastMix(chs, data, s.geometries[k]);
    }
  }

  /** Every geometry that has R, G and B channels gets a colour update with
      their last values. */
  lemma RenderRgbComplete(p: Patch, buf: Buffer, lightNames: seq<string>, emitterNames: seq<string>, g: string)
    requires HasIn(p.channels, "ColorAdd_R", g) && HasIn(p.channels, "ColorAdd_G", g) && HasIn(p.channels, "ColorAdd_B", g)
    ensures exists u ::
      && u in Render(p, buf, lightNames, emitterNames) && u.UpdateRgb?
      && IsLast(p.channels, RenderData(p, buf), |p.channels|, "ColorAdd_R", Some(g), Some(u.r))
      && IsLast(p.channels, RenderData(p, buf), |p.channels|, "ColorAdd_G", Some(g), Some(u.g))
      && IsLast(p.channels, RenderData(p, buf), |p.channels|, "ColorAdd_B", Some(g), Some(u.b))
  {
    var chs, data := p.channels, RenderData(p, buf);
    var s := RenderScan(p, buf);
    var pg := PerGeometry(s, lightNames, emitterNames);
    ScanLastMix(chs, data, g);
    ScanGeometries(chs, data);
    IsLastHasIn(chs, data, "ColorAdd_R", g, MixOf(s, g).r);
    IsLastHasIn(chs, data, "ColorAdd_G", g, MixOf(s, g).g);
    IsLastHasIn(chs, data, "ColorAdd_B", g, MixOf(s, g).b);
    assert g in s.mix;
    var k :| 0 <= k < |s.geometries| && s.geometries[k] == g;
    var u := RgbFor(s, g, pg);
    assert u in RgbUpdates(s, s.geometries, pg);
    assert u in Render(p, buf, lightNames, emitterNames);
  }

  /** A colour update names its geometry exactly when the fixture has more
      than one geometry and one of them occurs in a light or emitter name. */
  lemma RenderRgbAddressed(p: Patch, buf: Buffer, lightNames: seq<string>, emitterNames: seq<string>)
    ensures forall u :: u in Render(p, buf, lightNames, emitterNames) && u.UpdateRgb? ==>
      (u.geometry.Some? <==> !SingleGeometry(p.channels) && GeometryNamed(p.channels, lightNames, emitterNames))
  {
    var chs, data := p.channels, RenderData(p, buf);
    var s := RenderScan(p, buf);
    var pg := PerGeometry(s, lightNames, emitterNames);
    GeometryNamedIff(chs, data, lightNames, emitterNames);
    forall u | u in Render(p, buf, lightNames, emitterNames) && u.UpdateRgb?
      ensures u.geometry.Some? <==> !SingleGeometry(chs) && GeometryNamed(chs, lightNames, emitterNames)
    {
      assert u in RgbUpdates(s, s.geometries, pg);
      var k :| 0 <= k < |s.geometries| && Complete(MixOf(s, s.geometries[k])) && u == RgbFor(s, s.geometries[k], pg);
      ScanGeometries(chs, data);
      assert s.geometries[k] in s.mix;
      GeometryCount(chs, data);
    }
  }
}
