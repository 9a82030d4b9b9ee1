/**
 * The Programmer panel's selection operators and its Clear operator, over an
 * abstract scene: each fixture has a collection of objects, among them a
 * root, an optional target and the geometry-root bodies; the scene's
 * selection is a set of objects.
 */
module Programmer {
  import opened Wrappers
  import opened DmxData
  import Fixture

  /** A Blender object, by identity. */
  datatype Obj = Obj(name: string)

  /** What the operators see of a fixture: its patch, the objects of its
      collection, its `Root` and `Target` objects, and the objects flagged
      `geometry_root`. */
  datatype SceneFixture = SceneFixture(
    patch: Fixture.Patch,
    collection: set<Obj>,
    root: Obj,
    target: Option<Obj>,
    bodies: set<Obj>)

  /** A fixture as `build` creates it: root, target and bodies are objects of
      its own collection. */
  ghost predicate WellFormed(f: SceneFixture) {
    && f.root in f.collection
    && (f.target.Some? ==> f.target.value in f.collection)
    && f.bodies <= f.collection
  }

  /** Well-formed fixtures that share no objects. */
  ghost predicate Separate(fs: seq<SceneFixture>) {
    && (forall i :: 0 <= i < |fs| ==> WellFormed(fs[i]))
    && (forall i, j :: 0 <= i < |fs| && 0 <= j < |fs| && i != j ==> fs[i].collection !! fs[j].collection)
  }

  /** Some object of the fixture's collection is selected. */
  predicate Touched(f: SceneFixture, sel: set<Obj>) {
    f.collection * sel != {}
  }

  function TargetSet(f: SceneFixture): set<Obj> {
    if f.target.Some? then {f.target.value} else {}
  }

  /** The objects `select` and `unselect` act on: the root and the target. */
  function Handles(f: SceneFixture): set<Obj> {
    {f.root} + TargetSet(f)
  }

  /** `DMX_Fixture.unselect`: deselect the root and, if any, the target. */
  function Unselect(f: SceneFixture, sel: set<Obj>): (r: set<Obj>)
    ensures forall o :: o in r <==> o in sel && o !in Handles(f)
  {
    sel - Handles(f)
  }

  // ---------------------------------------------------------------------
  // Select all / every other
  // ---------------------------------------------------------------------

  /** The roots of the fixtures whose index satisfies `even` (all of them when
      `evenOnly` is false). */
  function Roots(fs: seq<SceneFixture>, evenOnly: bool): set<Obj> {
    set i | 0 <= i < |fs| && (!evenOnly || i % 2 == 0) :: fs[i].root
  }

  /** `DMX_OT_Programmer_SelectAll`: select every fixture's root, keeping the
      rest of the selection. */
  function SelectAll(fs: seq<SceneFixture>, sel: set<Obj>): (r: set<Obj>)
    ensures sel <= r
    ensures forall i :: 0 <= i < |fs| ==> fs[i].root in r
    ensures forall o :: o in r && o !in sel ==> exists i :: 0 <= i < |fs| && fs[i].root == o
  {
    sel + Roots(fs, false)
  }

  /** After Select All every well-formed fixture is selected, and selecting
      all again changes nothing. */
  lemma SelectAllTouchesEvery(fs: seq<SceneFixture>, sel: set<Obj>)
    requires forall i :: 0 <= i < |fs| ==> WellFormed(fs[i])
    ensures forall i :: 0 <= i < |fs| ==> Touched(fs[i], SelectAll(fs, sel))
    ensures SelectAll(fs, SelectAll(fs, sel)) == SelectAll(fs, sel)
  {
    forall i | 0 <= i < |fs|
      ensures Touched(fs[i], SelectAll(fs, sel))
    {
      assert fs[i].root in fs[i].collection * SelectAll(fs, sel);
    }
  }

  /** `DMX_OT_Programmer_SelectEveryOther`: deselect everything, then select
      the roots of the fixtures at even positions. */
  function SelectEveryOther(fs: seq<SceneFixture>): (r: set<Obj>)
    ensures forall i :: 0 <= i < |fs| && i % 2 == 0 ==> fs[i].root in r
    ensures forall o :: o in r ==> exists i :: 0 <= i < |fs| && i % 2 == 0 && fs[i].root == o
  {
    Roots(fs, true)
  }

  /** With separate fixtures, exactly the even-positioned ones end up
      selected. */
  lemma SelectEveryOtherAlternates(fs: seq<SceneFixture>)
    requires Separate(fs)
    ensures forall i :: 0 <= i < |fs| ==> (Touched(fs[i], SelectEveryOther(fs)) <==> i % 2 == 0)
  {
    var r := SelectEveryOther(fs);
    forall i | 0 <= i < |fs|
      ensures Touched(fs[i], r) <==> i % 2 == 0
    {
      if i % 2 == 0 {
        assert fs[i].root in fs[i].collection * r;
      }
    }
  }

  // ---------------------------------------------------------------------
  // Invert
  // ---------------------------------------------------------------------

  /** The first loop of `DMX_OT_Programmer_SelectInvert` over the first `n`
      fixtures: a fixture with a selected object (in the selection as it is
      at that point) is remembered and unselected. Returns the selection and
      the remembered positions. */
  function InvertPass(fs: seq<SceneFixture>, sel: set<Obj>, n: nat): (r: (set<Obj>, set<int>))
    requires n <= |fs|
    ensures forall i :: i in r.1 ==> 0 <= i < n && Touched(fs[i], sel)
    ensures r.0 <= sel
  {
    if n == 0 then (sel, {})
    else
      var prev := InvertPass(fs, sel, n - 1);
      if Touched(fs[n - 1], prev.0) then (Unselect(fs[n - 1], prev.0), prev.1 + {n - 1}) else prev
  }

  /** `DMX_OT_Programmer_SelectInvert`: unselect every fixture that has a
      selected object, then select every other fixture. */
  function SelectInvert(fs: seq<SceneFixture>, sel: set<Obj>): (r: set<Obj>)
    ensures forall i :: 0 <= i < |fs| && !Touched(fs[i], sel) ==> fs[i].root in r
    ensures forall o :: o in r ==> o in sel || exists i :: 0 <= i < |fs| && o == fs[i].root
  {
    var (s, touched) := InvertPass(fs, sel, |fs|);
    s + set i | 0 <= i < |fs| && i !in touched :: fs[i].root
  }

  /** With separate fixtures, unselecting one fixture cannot change whether a
      later one has a selected object: the first loop removes exactly the
      roots and targets of the fixtures that had a selected object at the
      start. */
  lemma {:induction false} InvertPassSeparate(fs: seq<SceneFixture>, sel: set<Obj>, n: nat)
    requires n <= |fs| && Separate(fs)
    ensures forall i :: 0 <= i < n ==> (i in InvertPass(fs, sel, n).1 <==> Touched(fs[i], sel))
    ensures forall o :: o in InvertPass(fs, sel, n).0 <==>
      o in sel && forall i :: 0 <= i < n && Touched(fs[i], sel) ==> o !in Handles(fs[i])
    ensures forall i :: n <= i < |fs| ==> fs[i].collection * InvertPass(fs, sel, n).0 == fs[i].collection * sel
  {
    if n > 0 {
      InvertPassSeparate(fs, sel, n - 1);
      var prev := InvertPass(fs, sel, n - 1);
      var f := fs[n - 1];
      assert Touched(f, prev.0) <==> Touched(f, sel);
      forall i | n <= i < |fs|
        ensures fs[i].collection * InvertPass(fs, sel, n).0 == fs[i].collection * sel
      {
        assert fs[i].collection !! f.collection;
        assert Handles(f) <= f.collection;
      }
    }
  }

  /** With separate fixtures, Invert keeps exactly the selected objects that
      are neither root nor target of a fixture with a selected object, and
      adds the root of every fixture without one. */
  lemma InvertSelection(fs: seq<SceneFixture>, sel: set<Obj>)
    requires Separate(fs)
    ensures forall o :: o in SelectInvert(fs, sel) <==>
      || (o in sel && forall i :: 0 <= i < |fs| && Touched(fs[i], sel) ==> o !in Handles(fs[i]))
      || (exists i :: 0 <= i < |fs| && !Touched(fs[i], sel) && o == fs[i].root)
  {
    InvertPassSeparate(fs, sel, |fs|);
    var (s, touched) := InvertPass(fs, sel, |fs|);
    assert forall i :: 0 <= i < |fs| ==> (i !in touched <==> !Touched(fs[i], sel));
  }

  /** After Invert, a separate fixture is selected exactly when it was not
      before, or when it still has a selected object besides its root and
      target. */
  lemma InvertTouched(fs: seq<SceneFixture>, sel: set<Obj>, i: int)
    requires Separate(fs) && 0 <= i < |fs|
    ensures Touched(fs[i], SelectInvert(fs, sel)) <==>
      !Touched(fs[i], sel) || fs[i].collection * sel - Handles(fs[i]) != {}
  {
    InvertPassSeparate(fs, sel, |fs|);
    var (s, touched) := InvertPass(fs, sel, |fs|);
    var roots := set j | 0 <= j < |fs| && j !in touched :: fs[j].root;
    var r := SelectInvert(fs, sel);
    var f := fs[i];
    assert r == s + roots;
    if !Touched(f, sel) {
      assert i !in touched;
      assert f.root in f.collection * r;
    } else {
      assert i in touched;
      if Touched(f, r) {
        var o :| o in f.collection * r;
        assert o in f.collection * sel - Handles(f);
      }
    }
  }

  /** Inverting a selection of whole fixtures (roots only) selects exactly the
      other fixtures. */
  lemma InvertFlipsRoots(fs: seq<SceneFixture>, sel: set<Obj>)
    requires Separate(fs)
    requires forall i :: 0 <= i < |fs| ==> fs[i].collection * sel <= {fs[i].root}
    ensures forall i :: 0 <= i < |fs| ==> (Touched(fs[i], SelectInvert(fs, sel)) <==> !Touched(fs[i], sel))
  {
    forall i | 0 <= i < |fs|
      ensures Touched(fs[i], SelectInvert(fs, sel)) <==> !Touched(fs[i], sel)
    {
      InvertTouched(fs, sel, i);
      assert fs[i].collection * sel - Handles(fs[i]) == {};
    }
  }

  // ---------------------------------------------------------------------
  // Targets and bodies
  // ---------------------------------------------------------------------

  /** The targets of the fixtures that have a selected object. */
  function TouchedTargets(fs: seq<SceneFixture>, sel: set<Obj>): (r: set<Obj>)
    ensures forall o :: o in r <==> exists i :: 0 <= i < |fs| && Touched(fs[i], sel) && o in TargetSet(fs[i])
  {
    set i, o | 0 <= i < |fs| && Touched(fs[i], sel) && o in TargetSet(fs[i]) :: o
  }

  /** `select_targets`: when some fixture with a selected object has a
      target, the selection becomes exactly those targets; otherwise it is
      left alone. */
  function SelectTargets(fs: seq<SceneFixture>, sel: set<Obj>): (r: set<Obj>)
    ensures TouchedTargets(fs, sel) != {} ==> r == TouchedTargets(fs, sel)
    ensures TouchedTargets(fs, sel) == {} ==> r == sel
  {
    var targets := TouchedTargets(fs, sel);
    if targets != {} then targets else sel
  }

  /** The bodies of the fixtures that have a selected object. */
  function TouchedBodies(fs: seq<SceneFixture>, sel: set<Obj>): (r: set<Obj>)
    ensures forall o :: o in r <==> exists i :: 0 <= i < |fs| && Touched(fs[i], sel) && o in fs[i].bodies
  {
    set i, o | 0 <= i < |fs| && Touched(fs[i], sel) && o in fs[i].bodies :: o
  }

  /** `DMX_OT_Programmer_SelectBodies`: when some fixture with a selected
      object has bodies, the selection becomes exactly those bodies; otherwise
      it is left alone. */
  function SelectBodies(fs: seq<SceneFixture>, sel: set<Obj>): (r: set<Obj>)
    ensures TouchedBodies(fs, sel) != {} ==> r == TouchedBodies(fs, sel)
    ensures TouchedBodies(fs, sel) == {} ==> r == sel
  {
    var bodies := TouchedBodies(fs, sel);
    if bodies != {} then bodies else sel
  }

  /** With separate fixtures, a fixture has a selected target among the
      touched fixtures' targets exactly when it had a selected object and has
      a target. */
  lemma TouchedByTargets(fs: seq<SceneFixture>, sel: set<Obj>, i: int)
    requires Separate(fs) && 0 <= i < |fs|
    ensures Touched(fs[i], TouchedTargets(fs, sel)) <==> Touched(fs[i], sel) && fs[i].target.Some?
  {
    var t := TouchedTargets(fs, sel);
    if Touched(fs[i], sel) && fs[i].target.Some? {
      assert fs[i].target.value in fs[i].collection * t;
    }
    if Touched(fs[i], t) {
      var o :| o in fs[i].collection * t;
      var j :| 0 <= j < |fs| && Touched(fs[j], sel) && o in TargetSet(fs[j]);
      assert o in fs[j].collection;
    }
  }

  /** With separate fixtures, selecting targets keeps exactly the same
      fixtures selected when every selected fixture has a target. */
  lemma SelectTargetsKeepsFixtures(fs: seq<SceneFixture>, sel: set<Obj>)
    requires Separate(fs)
    requires forall i :: 0 <= i < |fs| && Touched(fs[i], sel) ==> fs[i].target.Some?
    ensures forall i :: 0 <= i < |fs| ==> (Touched(fs[i], SelectTargets(fs, sel)) <==> Touched(fs[i], sel))
  {
    forall i | 0 <= i < |fs|
      ensures Touched(fs[i], SelectTargets(fs, sel)) <==> Touched(fs[i], sel)
    {
      TouchedByTargets(fs, sel, i);
    }
  }

  /** With separate fixtures, selecting targets twice is selecting them once. */
  lemma SelectTargetsIdempotent(fs: seq<SceneFixture>, sel: set<Obj>)
    requires Separate(fs)
    ensures SelectTargets(fs, SelectTargets(fs, sel)) == SelectTargets(fs, sel)
  {
    TargetsToZeroMovesTouchedTargets(fs, sel);
  }

  /** `DMX_OT_Programmer_TargetsToZero`: select the targets, then move to the
      origin the target of every fixture that has a selected object. Returns
      the selection and the objects moved; which objects move is stated by
      `TargetsToZeroMovesTouchedTargets`. */
  function TargetsToZero(fs: seq<SceneFixture>, sel: set<Obj>): (r: (set<Obj>, set<Obj>))
    ensures r.0 == SelectTargets(fs, sel)
  {
    var selected := SelectTargets(fs, sel);
    (selected, TouchedTargets(fs, selected))
  }

  /** With separate fixtures, Targets to Zero moves exactly the targets of the
      fixtures that had a selected object before it ran. */
  lemma TargetsToZeroMovesTouchedTargets(fs: seq<SceneFixture>, sel: set<Obj>)
    requires Separate(fs)
    ensures TargetsToZero(fs, sel).1 == TouchedTargets(fs, sel)
  {
    var t := TouchedTargets(fs, sel);
    forall i | 0 <= i < |fs|
      ensures Touched(fs[i], t) <==> Touched(fs[i], sel) && fs[i].target.Some?
    {
      TouchedByTargets(fs, sel, i);
    }
  }

  /** With separate fixtures, selecting bodies keeps exactly the fixtures
      that had a selected object and have bodies, when there are any. */
  lemma SelectBodiesKeepsFixtures(fs: seq<SceneFixture>, sel: set<Obj>, i: int)
    requires Separate(fs) && 0 <= i < |fs|
    requires TouchedBodies(fs, sel) != {}
    ensures Touched(fs[i], SelectBodies(fs, sel)) <==> Touched(fs[i], sel) && fs[i].bodies != {}
  {
    var b := TouchedBodies(fs, sel);
    if Touched(fs[i], sel) && fs[i].bodies != {} {
      var o :| o in fs[i].bodies;
      assert o in fs[i].collection * b;
    }
    if Touched(fs[i], b) {
      var o :| o in fs[i].collection * b;
      var j :| 0 <= j < |fs| && Touched(fs[j], sel) && o in fs[j].bodies;
      assert o in fs[j].collection;
    }
  }

  // ---------------------------------------------------------------------
  // Clear
  // ---------------------------------------------------------------------

  /** The programmer controls of the scene. Colour, dimmer, pan and tilt are
      floating-point properties; zoom and shutter are integers. */
  datatype ProgrammerState = ProgrammerState(color: seq<real>, dimmer: real, pan: real, tilt: real, zoom: int, shutter: int)

  /** The controls after Clear: white, dimmer, pan, tilt, zoom and strobe at 0. */
  const ResetState := ProgrammerState([1.0, 1.0, 1.0, 1.0], 0.0, 0.0, 0.0, 0, 0)

  /** Clear resets a fixture when nothing at all is selected, or when one of
      its objects is. */
  predicate Clears(fs: seq<SceneFixture>, sel: set<Obj>, i: int)
    requires 0 <= i < |fs|
  {
    sel == {} || Touched(fs[i], sel)
  }

  /** The fixture loop of `DMX_OT_Programmer_Clear` over the first `n`
      fixtures. */
  function ClearLoop(fs: seq<SceneFixture>, sel: set<Obj>, buf: Buffer, n: nat): (r: Buffer)
    requires n <= |fs|
  {
    if n == 0 then buf
    else
      var b := ClearLoop(fs, sel, buf, n - 1);
      if Clears(fs, sel, n - 1) then Fixture.Clear(fs[n - 1].patch, b) else b
  }

  /** `k` is one of the slots of fixture `i`. */
  predicate InPatch(fs: seq<SceneFixture>, i: int, k: (int, int))
    requires 0 <= i < |fs|
  {
    InBlock(k, fs[i].patch.universe, fs[i].patch.address, |fs[i].patch.channels|)
  }

  /** A slot that belongs to no cleared fixture keeps its value. */
  lemma {:induction false} ClearLoopOutside(fs: seq<SceneFixture>, sel: set<Obj>, buf: Buffer, n: nat, k: (int, int))
    requires n <= |fs|
    requires forall i :: 0 <= i < n && Clears(fs, sel, i) ==> !InPatch(fs, i, k)
    ensures Unchanged(buf, ClearLoop(fs, sel, buf, n), k)
  {
    if n > 0 {
      ClearLoopOutside(fs, sel, buf, n - 1, k);
    }
  }

  /** One more fixture of the loop leaves a slot outside it alone. */
  lemma ClearLoopStepKeeps(fs: seq<SceneFixture>, sel: set<Obj>, buf: Buffer, n: nat, k: (int, int))
    requires 0 < n <= |fs|
    requires Clears(fs, sel, n - 1) ==> !InPatch(fs, n - 1, k)
    ensures Get(ClearLoop(fs, sel, buf, n), k.0, k.1) == Get(ClearLoop(fs, sel, buf, n - 1), k.0, k.1)
  {
    var before := ClearLoop(fs, sel, buf, n - 1);
    if Clears(fs, sel, n - 1) {
      assert Unchanged(before, Fixture.Clear(fs[n - 1].patch, before), k);
    }
  }

  /** A cleared fixture's slot holds its channel default unless a later
      cleared fixture shares the slot. */
  lemma {:induction false} ClearLoopInside(fs: seq<SceneFixture>, sel: set<Obj>, buf: Buffer, n: nat, i: int, c: int)
    requires i < n <= |fs| && 0 <= i && Clears(fs, sel, i) && 0 <= c < |fs[i].patch.channels|
    requires forall j :: i < j < n && Clears(fs, sel, j) ==>
      !InPatch(fs, j, (fs[i].patch.universe, fs[i].patch.address + c))
    ensures Get(ClearLoop(fs, sel, buf, n), fs[i].patch.universe, fs[i].patch.address + c) == fs[i].patch.channels[c].default
  {
    if n - 1 > i {
      ClearLoopInside(fs, sel, buf, n - 1, i, c);
      ClearLoopStepKeeps(fs, sel, buf, n, (fs[i].patch.universe, fs[i].patch.address + c));
    } else {
      ClearLoopLast(fs, sel, buf, n, c);
    }
  }

  /** The fixture the loop cleared last reads its defaults. */
  lemma ClearLoopLast(fs: seq<SceneFixture>, sel: set<Obj>, buf: Buffer, n: nat, c: int)
    requires 0 < n <= |fs| && Clears(fs, sel, n - 1) && 0 <= c < |fs[n - 1].patch.channels|
    ensures Get(ClearLoop(fs, sel, buf, n), fs[n - 1].patch.universe, fs[n - 1].patch.address + c)
            == fs[n - 1].patch.channels[c].default
  {
    var p := fs[n - 1].patch;
    var k := (p.universe, p.address + c);
    assert InPatch(fs, n - 1, k);
    assert ClearLoop(fs, sel, buf, n) == Fixture.Clear(p, ClearLoop(fs, sel, buf, n - 1));
  }

  /** No two fixtures share a DMX slot. */
  ghost predicate PatchesApart(fs: seq<SceneFixture>) {
    forall i, j, k :: 0 <= i < |fs| && 0 <= j < |fs| && i != j && InPatch(fs, i, k) ==> !InPatch(fs, j, k)
  }

  /** `DMX_OT_Programmer_Clear`: reset the DMX values of every fixture when
      nothing is selected, or of the fixtures with a selected object, and
      reset the programmer controls. */
  function ClearProgrammer(fs: seq<SceneFixture>, sel: set<Obj>, buf: Buffer): (r: (Buffer, ProgrammerState))
    ensures r.1.color == [1.0, 1.0, 1.0, 1.0]
    ensures r.1.dimmer == 0.0 && r.1.pan == 0.0 && r.1.tilt == 0.0 && r.1.zoom == 0 && r.1.shutter == 0
    ensures forall k :: (forall i :: 0 <= i < |fs| && Clears(fs, sel, i) ==> !InPatch(fs, i, k)) ==> Unchanged(buf, r.0, k)
  {
    var cleared := ClearLoop(fs, sel, buf, |fs|);
    forall k | forall i :: 0 <= i < |fs| && Clears(fs, sel, i) ==> !InPatch(fs, i, k)
      ensures Unchanged(buf, cleared, k)
    {
      ClearLoopOutside(fs, sel, buf, |fs|, k);
    }
    (cleared, ResetState)
  }

  /** With fixtures on separate slots, Clear puts every channel of every
      cleared fixture back to its default; with nothing selected that is
      every fixture. */
  lemma ClearResetsCleared(fs: seq<SceneFixture>, sel: set<Obj>, buf: Buffer, i: int, c: int)
    requires PatchesApart(fs)
    requires 0 <= i < |fs| && (sel == {} || Touched(fs[i], sel)) && 0 <= c < |fs[i].patch.channels|
    ensures Get(ClearProgrammer(fs, sel, buf).0, fs[i].patch.universe, fs[i].patch.address + c) == fs[i].patch.channels[c].default
  {
    var k := (fs[i].patch.universe, fs[i].patch.address + c);
    assert InPatch(fs, i, k);
    ClearLoopInside(fs, sel, buf, |fs|, i, c);
  }
}
