/** The view's state as a value, and each event handler as a function from
    the state before the event to the state after it. The class in module View
    updates its fields in place and is proved to follow these functions; the
    lemmas here relate several events. */
module Transitions {
  import opened Scenes

  /** The view's six state fields. */
  datatype LightState = LightState(
    brightness: real,
    saturation: real,
    hue: real,
    selectedScene: string,
    isPanelVisible: bool,
    dragOffset: real)

  /** A drag must travel further than this to change the scene. */
  const Threshold: real := 50.0

  function Abs(x: real): real {
    if x < 0.0 then -x else x
  }

  /** The state the view starts in: the first scene selected, the panel
      shown, no drag under way. Its parameters are not those of its selected
      scene's preset (see InitialState). */
  function Initial(): (r: LightState)
    ensures r.selectedScene == Catalog[0].name
    ensures r.isPanelVisible && r.dragOffset == 0.0
  {
    LightState(0.5, 1.0, 0.0, "自然光", true, 0.0)
  }

  function Params(st: LightState): Preset {
    Preset(st.brightness, st.saturation, st.hue)
  }

  /** The position of the selected scene in the catalog, when it has one.
      It has one exactly when the selected scene is a catalog name. */
  function Position(st: LightState): (r: Option<nat>)
    ensures r.Some? ==> r.value < |Catalog| && Catalog[r.value].name == st.selectedScene
    ensures r.Some? <==> st.selectedScene in Names()
  {
    FirstIndexInCatalog(st.selectedScene);
    FirstIndex(Catalog, st.selectedScene)
  }

  /** What every reachable state satisfies: the selected scene is a catalog
      scene and the parameters lie in [0, 1]. */
  predicate Invariant(st: LightState) {
    st.selectedScene in Names() && InUnitRange(Params(st))
  }

  /** The parameters are exactly the preset of the selected scene. */
  predicate Synced(st: LightState) {
    PresetFor(st.selectedScene) == Some(Params(st))
  }

  /** The preset switch applied to the state: only the three parameters may
      change, and only when the name is a catalog name. */
  function ApplyScene(st: LightState, name: string): (r: LightState)
    ensures r.selectedScene == st.selectedScene
    ensures r.isPanelVisible == st.isPanelVisible && r.dragOffset == st.dragOffset
    ensures name !in Names() ==> r == st
    ensures name in Names() ==> PresetFor(name) == Some(Params(r))
    ensures Invariant(st) ==> Invariant(r)
  {
    PresetExactlyForCatalog(name);
    match PresetFor(name)
    case None => st
    case Some(p) => st.(brightness := p.brightness, saturation := p.saturation, hue := p.hue)
  }

  /** Selecting the scene at position k of the catalog and applying it, as a
      tile tap or a completed drag does. */
  function SelectScene(st: LightState, k: nat): (r: LightState)
    requires k < |Catalog|
    ensures r.selectedScene == Catalog[k].name && Synced(r)
    ensures r.isPanelVisible == st.isPanelVisible && r.dragOffset == st.dragOffset
    ensures Invariant(st) ==> Invariant(r)
  {
    assert Names()[k] == Catalog[k].name;
    ApplyScene(st.(selectedScene := Catalog[k].name), Catalog[k].name)
  }

  /** Tapping the colour panel shows or hides the control panel. */
  function TapPanel(st: LightState): (r: LightState)
    ensures r.isPanelVisible != st.isPanelVisible
    ensures Params(r) == Params(st) && r.selectedScene == st.selectedScene
    ensures r.dragOffset == st.dragOffset
  {
    st.(isPanelVisible := !st.isPanelVisible)
  }

  /** The end of a drag: past the threshold, step one scene back (rightward
      drag) or forward (leftward drag) from the current scene's position,
      wrapping around; in every case forget the offset. */
  function DragEnd(st: LightState): (r: LightState)
    ensures r.dragOffset == 0.0 && r.isPanelVisible == st.isPanelVisible
    ensures Invariant(st) ==> Invariant(r)
  {
    if Abs(st.dragOffset) > Threshold then
      match Position(st)
      case None => st.(dragOffset := 0.0)
      case Some(i) =>
        var k := if st.dragOffset > 0.0 then Prev(i, |Catalog|) else Next(i, |Catalog|);
        SelectScene(st, k).(dragOffset := 0.0)
    else st.(dragOffset := 0.0)
  }

  /** A whole drag: the finger moves by `offset` and lifts. Whatever the
      offset, the drag leaves no offset behind and a reachable state
      reachable; a short one changes nothing else. */
  function Swipe(st: LightState, offset: real): (r: LightState)
    ensures r.dragOffset == 0.0 && r.isPanelVisible == st.isPanelVisible
    ensures Abs(offset) <= Threshold ==> r == st.(dragOffset := 0.0)
    ensures Invariant(st) ==> Invariant(r)
  {
    DragEnd(st.(dragOffset := offset))
  }

  /** The swipe by `offset` as a step function. */
  function SwipeBy(offset: real): LightState -> LightState {
    st => Swipe(st, offset)
  }

  /** One swipe per offset, in order. */
  function Swipes(offsets: seq<real>): seq<LightState -> LightState> {
    seq(|offsets|, k requires 0 <= k < |offsets| => SwipeBy(offsets[k]))
  }

  /** The steps applied one after another, the first one first. */
  function Chain(steps: seq<LightState -> LightState>, st: LightState): LightState {
    if |steps| == 0 then st else steps[|steps| - 1](Chain(steps[..|steps| - 1], st))
  }

  lemma InitialState()
    ensures Invariant(Initial())
    ensures Initial().selectedScene == Catalog[0].name
    ensures !Synced(Initial())
  {
    assert Names()[0] == "自然光";
  }

  /** A drag that does not pass the threshold changes nothing but the offset. */
  lemma DragEndBelowThreshold(st: LightState)
    requires Abs(st.dragOffset) <= Threshold
    ensures DragEnd(st) == st.(dragOffset := 0.0)
  {
  }

  /** A rightward drag past the threshold selects the previous scene and
      applies its preset. */
  lemma DragEndRight(st: LightState, i: nat)
    requires i < |Catalog| && st.selectedScene == Catalog[i].name
    requires st.dragOffset > Threshold
    ensures DragEnd(st).selectedScene == Catalog[Prev(i, |Catalog|)].name
    ensures Synced(DragEnd(st))
  {
    CatalogNamesDistinct();
    FirstIndexOfName(Catalog, i);
  }

  /** A leftward drag past the threshold selects the next scene and applies
      its preset. */
  lemma DragEndLeft(st: LightState, i: nat)
    requires i < |Catalog| && st.selectedScene == Catalog[i].name
    requires st.dragOffset < -Threshold
    ensures DragEnd(st).selectedScene == Catalog[Next(i, |Catalog|)].name
    ensures Synced(DragEnd(st))
  {
    CatalogNamesDistinct();
    FirstIndexOfName(Catalog, i);
  }

  /** From any reachable state, a drag past the threshold lands on a catalog
      scene and leaves its preset applied. */
  lemma DragEndAboveThreshold(st: LightState)
    requires Invariant(st)
    requires Abs(st.dragOffset) > Threshold
    ensures Position(DragEnd(st)).Some?
    ensures DragEnd(st).selectedScene == Catalog[Position(DragEnd(st)).value].name
    ensures DragEnd(st).selectedScene != st.selectedScene
    ensures Synced(DragEnd(st))
  {
    FirstIndexInCatalog(st.selectedScene);
    var i := Position(st).value;
    CatalogNamesDistinct();
    var k := if st.dragOffset > 0.0 then Prev(i, |Catalog|) else Next(i, |Catalog|);
    if st.dragOffset > 0.0 {
      DragEndRight(st, i);
    } else {
      DragEndLeft(st, i);
    }
    FirstIndexOfName(Catalog, k);
  }

  /** From the first scene a rightward drag wraps to the last one, and a
      leftward drag reaches the second one. */
  lemma DragFromFirstScene(st: LightState, offset: real)
    requires st.selectedScene == "自然光"
    requires Abs(offset) > Threshold
    ensures offset > 0.0 ==> Swipe(st, offset).selectedScene == "DeepSeek蓝"
    ensures offset < 0.0 ==> Swipe(st, offset).selectedScene == "暖光"
  {
    CatalogShape();
    if offset > 0.0 {
      DragEndRight(st.(dragOffset := offset), 0);
    } else {
      DragEndLeft(st.(dragOffset := offset), 0);
    }
  }

  /** One leftward swipe past the threshold moves the selection one position
      forward and applies the preset of the scene there. */
  lemma SwipeLeftStep(st: LightState, j: nat, offset: real)
    requires Position(st) == Some(j)
    requires offset < -Threshold
    ensures Position(Swipe(st, offset)) == Some(Next(j, |Catalog|))
    ensures Synced(Swipe(st, offset))
  {
    DragEndLeft(st.(dragOffset := offset), j);
    CatalogNamesDistinct();
    FirstIndexOfName(Catalog, Next(j, |Catalog|));
  }

  /** `step` moves the position that `pos` reads off a state one place
      forward among n places, wrapping from the last to the first. */
  ghost predicate Advances(step: LightState -> LightState, pos: LightState -> Option<nat>, n: nat) {
    (forall st :: pos(st).Some? ==> pos(st).value < n) &&
    (forall st {:trigger step(st)} :: pos(st).Some? && pos(st).value < n ==>
      pos(step(st)) == Some(Next(pos(st).value, n)))
  }

  /** A leftward swipe past the threshold advances the selected scene's
      position in the catalog. */
  lemma SwipeLeftAdvances(offset: real)
    requires offset < -Threshold
    ensures Advances(SwipeBy(offset), Position, |Catalog|)
  {
    forall st | Position(st).Some?
      ensures Position(SwipeBy(offset)(st)) == Some(Next(Position(st).value, |Catalog|))
    {
      SwipeLeftStep(st, Position(st).value, offset);
    }
  }

  /** A chain of steps that each advance a position by one moves it as many
      places forward as there are steps. */
  lemma {:induction false} ChainAdvances(
    steps: seq<LightState -> LightState>, pos: LightState -> Option<nat>, n: nat,
    st: LightState, i: nat)
    requires forall k :: 0 <= k < |steps| ==> Advances(steps[k], pos, n)
    requires pos(st) == Some(i) && i < n
    ensures pos(Chain(steps, st)) == Some(Forward(i, |steps|, n))
  {
    if |steps| > 0 {
      var init := steps[..|steps| - 1];
      assert forall k :: 0 <= k < |init| ==> init[k] == steps[k];
      ChainAdvances(init, pos, n, st, i);
      var last := steps[|steps| - 1];
      assert Advances(last, pos, n);
      assert Chain(steps, st) == last(Chain(init, st));
    }
  }

  /** The last swipe of a chain of swipes acts on what the others leave. */
  lemma ChainLastSwipe(offsets: seq<real>, st: LightState)
    requires |offsets| > 0
    ensures Chain(Swipes(offsets), st)
      == Swipe(Chain(Swipes(offsets[..|offsets| - 1]), st), offsets[|offsets| - 1])
  {
    var steps := Swipes(offsets);
    assert steps[..|steps| - 1] == Swipes(offsets[..|offsets| - 1]);
  }

  /** Any nine leftward drags past the threshold in a row, one per scene,
      return to the starting scene, with its preset applied. */
  lemma FullCycleLeft(st: LightState, offsets: seq<real>)
    requires st.selectedScene in Names()
    requires |offsets| == |Catalog|
    requires forall k :: 0 <= k < |offsets| ==> offsets[k] < -Threshold
    ensures Chain(Swipes(offsets), st).selectedScene == st.selectedScene
    ensures Synced(Chain(Swipes(offsets), st))
  {
    var i := Position(st).value;
    var n := |Catalog|;
    var steps := Swipes(offsets);
    forall k | 0 <= k < |steps| ensures Advances(steps[k], Position, n) {
      SwipeLeftAdvances(offsets[k]);
    }
    ChainAdvances(steps, Position, n, st, i);
    ForwardWraps(i, |steps|, n);
    var init := offsets[..|offsets| - 1];
    var initSteps := Swipes(init);
    forall k | 0 <= k < |initSteps| ensures Advances(initSteps[k], Position, n) {
      SwipeLeftAdvances(init[k]);
    }
    ChainAdvances(initSteps, Position, n, st, i);
    var before := Chain(initSteps, st);
    ChainLastSwipe(offsets, st);
    SwipeLeftStep(before, Position(before).value, offsets[|offsets| - 1]);
  }

  /** Tapping the colour panel twice restores the state. */
  lemma TapPanelTwice(st: LightState)
    ensures TapPanel(TapPanel(st)) == st
  {
  }
}
