/** The view itself: its six state fields, updated in place by the gesture
    handlers. Each handler is proved to take the state to what the matching
    function of module Transitions gives. */
module View {
  import opened Scenes
  import Transitions

  class ContentView {
    var brightness: real
    var saturation: real
    var hue: real
    var selectedScene: string
    var isPanelVisible: bool
    var dragOffset: real

    /** The fields as one value. */
    function State(): Transitions.LightState
      reads this
    {
      Transitions.LightState(brightness, saturation, hue, selectedScene, isPanelVisible, dragOffset)
    }

    ghost predicate Valid()
      reads this
    {
      Transitions.Invariant(State())
    }

    constructor ()
      ensures State() == Transitions.Initial()
      ensures Valid()
    {
      brightness := 0.5;
      saturation := 1.0;
      hue := 0.0;
      selectedScene := "自然光";
      isPanelVisible := true;
      dragOffset := 0.0;
      Transitions.InitialState();
    }

    /** The preset switch: a catalog name overwrites the three parameters
        with its constants; any other name changes nothing. */
    method ApplyScene(name: string)
      requires Valid()
      modifies this`brightness, this`saturation, this`hue
      ensures Valid()
      ensures State() == Transitions.ApplyScene(old(State()), name)
    {
      match PresetFor(name) {
        case None =>
        case Some(p) =>
          brightness := p.brightness;
          saturation := p.saturation;
          hue := p.hue;
      }
    }

    /** While the finger moves, the offset follows the horizontal translation. */
    method DragChanged(translation: real)
      requires Valid()
      modifies this`dragOffset
      ensures Valid()
      ensures State() == old(State()).(dragOffset := translation)
    {
      dragOffset := translation;
    }

    /** The finger lifts: past the threshold, select and apply the previous
        scene (rightward) or the next one (leftward); always reset the offset. */
    method DragEnded()
      requires Valid()
      modifies this`selectedScene, this`brightness, this`saturation, this`hue, this`dragOffset
      ensures Valid()
      ensures State() == Transitions.DragEnd(old(State()))
    {
      if Transitions.Abs(dragOffset) > Transitions.Threshold {
        var found := FirstIndex(Catalog, selectedScene);
        if found.Some? {
          var currentIndex := found.value;
          var newIndex := currentIndex;
          if dragOffset > 0.0 {
            newIndex := Prev(currentIndex, |Catalog|);
          } else {
            newIndex := Next(currentIndex, |Catalog|);
          }
          selectedScene := Catalog[newIndex].name;
          assert Names()[newIndex] == selectedScene;
          ApplyScene(Catalog[newIndex].name);
        }
      }
      dragOffset := 0.0;
    }

    /** Tapping the tile of the scene at position k selects and applies it,
        which is Transitions.SelectScene. The tiles exist only while the
        control panel is shown. */
    method TapTile(k: nat)
      requires Valid()
      requires k < |Catalog|
      requires isPanelVisible
      modifies this`selectedScene, this`brightness, this`saturation, this`hue
      ensures Valid()
      ensures State() == Transitions.SelectScene(old(State()), k)
    {
      selectedScene := Catalog[k].name;
      assert Names()[k] == selectedScene;
      ApplyScene(Catalog[k].name);
    }

    /** Tapping the colour panel shows or hides the control panel. */
    method TapPanel()
      requires Valid()
      modifies this`isPanelVisible
      ensures Valid()
      ensures State() == Transitions.TapPanel(old(State()))
    {
      isPanelVisible := !isPanelVisible;
    }

    /** The brightness slider, shown only with the control panel, which only
        produces values in [0, 1]. */
    method SetBrightness(v: real)
      requires Valid()
      requires 0.0 <= v <= 1.0
      requires isPanelVisible
      modifies this`brightness
      ensures Valid()
      ensures State() == old(State()).(brightness := v)
    {
      brightness := v;
    }

    /** The saturation slider, shown only with the control panel, which only
        produces values in [0, 1]. */
    method SetSaturation(v: real)
      requires Valid()
      requires 0.0 <= v <= 1.0
      requires isPanelVisible
      modifies this`saturation
      ensures Valid()
      ensures State() == old(State()).(saturation := v)
    {
      saturation := v;
    }

    /** The hue slider, shown only with the control panel, which only
        produces values in [0, 1]. */
    method SetHue(v: real)
      requires Valid()
      requires 0.0 <= v <= 1.0
      requires isPanelVisible
      modifies this`hue
      ensures Valid()
      ensures State() == old(State()).(hue := v)
    {
      hue := v;
    }
  }
}
