/** The fixed scene catalog of the light panel, the preset table keyed by scene
    name, the search that locates a scene by name, and the wrap-around index
    arithmetic used to step through the catalog. */
module Scenes {

  datatype Option<T> = None | Some(value: T)

  /** One catalog entry. The generated identifier is not modelled: the name
      is the lookup key. */
  datatype SceneItem = SceneItem(name: string, icon: string, description: string)

  /** The three light parameters a preset assigns. */
  datatype Preset = Preset(brightness: real, saturation: real, hue: real)

  /** The nine scenes, in the order in which dragging cycles through them. */
  const Catalog: seq<SceneItem> := [
    SceneItem("自然光", "sun.max", "自然舒适的光线"),
    SceneItem("暖光", "sunset", "温暖橙黄色调"),
    SceneItem("冷光", "moon", "清爽蓝色光线"),
    SceneItem("柔和光", "cloud.sun", "柔和米色光线"),
    SceneItem("少女感", "heart", "温暖粉嫩色调"),
    SceneItem("磨皮感", "wand.and.stars", "柔和自然光线"),
    SceneItem("冷白皮", "snowflake", "清透冷色调"),
    SceneItem("网感紫", "sparkles", "时尚紫色光线"),
    SceneItem("DeepSeek蓝", "rays", "科技蓝色光线")
  ]

  /** The catalog's names, position by position. */
  function Names(): seq<string> {
    seq(|Catalog|, k requires 0 <= k < |Catalog| => Catalog[k].name)
  }

  predicate DistinctNames(scenes: seq<SceneItem>) {
    forall i, j :: 0 <= i < j < |scenes| ==> scenes[i].name != scenes[j].name
  }

  predicate InUnitRange(p: Preset) {
    0.0 <= p.brightness <= 1.0 && 0.0 <= p.saturation <= 1.0 && 0.0 <= p.hue <= 1.0
  }

  lemma CatalogShape()
    ensures |Catalog| == |Names()| == 9
    ensures Catalog[0].name == "自然光" && Catalog[8].name == "DeepSeek蓝"
  {
  }

  /** No two scenes share a name, so a name identifies its scene. */
  lemma CatalogNamesDistinct()
    ensures DistinctNames(Catalog)
  {
  }

  /** The preset switch: the constants of a catalog scene, and None for any
      other name (the switch's default branch, which changes nothing). */
  function PresetFor(name: string): (r: Option<Preset>)
    ensures r.Some? ==> InUnitRange(r.value)
  {
    if name == "自然光" then Some(Preset(0.5, 0.7, 0.1))
    else if name == "暖光" then Some(Preset(0.6, 0.8, 0.08))
    else if name == "冷光" then Some(Preset(0.5, 0.6, 0.6))
    else if name == "柔和光" then Some(Preset(0.4, 0.5, 0.05))
    else if name == "少女感" then Some(Preset(0.7, 0.6, 0.95))
    else if name == "磨皮感" then Some(Preset(0.65, 0.4, 0.08))
    else if name == "冷白皮" then Some(Preset(0.75, 0.3, 0.6))
    else if name == "网感紫" then Some(Preset(0.6, 0.7, 0.8))
    else if name == "DeepSeek蓝" then Some(Preset(0.55, 0.75, 0.65))
    else None
  }

  /** The switch has a case for exactly the catalog's names: every scene the
      catalog offers has a preset, and no other name has one. */
  lemma PresetExactlyForCatalog(name: string)
    ensures PresetFor(name).Some? <==> name in Names()
  {
    if PresetFor(name).Some? {
      assert name == Names()[0] || name == Names()[1] || name == Names()[2]
          || name == Names()[3] || name == Names()[4] || name == Names()[5]
          || name == Names()[6] || name == Names()[7] || name == Names()[8];
    } else {
      forall k | 0 <= k < |Names()| ensures Names()[k] != name {
        assert k in {0, 1, 2, 3, 4, 5, 6, 7, 8};
      }
    }
  }

  /** The preset of each of the nine scenes, in catalog order. */
  lemma PresetTable()
    ensures PresetFor("自然光") == Some(Preset(0.5, 0.7, 0.1))
    ensures PresetFor("暖光") == Some(Preset(0.6, 0.8, 0.08))
    ensures PresetFor("冷光") == Some(Preset(0.5, 0.6, 0.6))
    ensures PresetFor("柔和光") == Some(Preset(0.4, 0.5, 0.05))
    ensures PresetFor("少女感") == Some(Preset(0.7, 0.6, 0.95))
    ensures PresetFor("磨皮感") == Some(Preset(0.65, 0.4, 0.08))
    ensures PresetFor("冷白皮") == Some(Preset(0.75, 0.3, 0.6))
    ensures PresetFor("网感紫") == Some(Preset(0.6, 0.7, 0.8))
    ensures PresetFor("DeepSeek蓝") == Some(Preset(0.55, 0.75, 0.65))
  {
  }

  /** The position of the first scene called `name`, if any. */
  function FirstIndex(scenes: seq<SceneItem>, name: string): (r: Option<nat>)
    ensures r.Some? ==> r.value < |scenes| && scenes[r.value].name == name
  {
    if |scenes| == 0 then None
    else if scenes[0].name == name then Some(0)
    else match FirstIndex(scenes[1..], name)
      case None => None
      case Some(k) => Some(k + 1)
  }

  /** The search finds the first occurrence, and finds nothing only when no
      scene has the name. */
  lemma {:induction false} FirstIndexIsFirst(scenes: seq<SceneItem>, name: string)
    ensures FirstIndex(scenes, name).Some? ==>
      forall j :: 0 <= j < FirstIndex(scenes, name).value ==> scenes[j].name != name
    ensures FirstIndex(scenes, name).None? ==>
      forall j :: 0 <= j < |scenes| ==> scenes[j].name != name
  {
    if |scenes| > 0 && scenes[0].name != name {
      FirstIndexIsFirst(scenes[1..], name);
      forall j | 1 <= j < |scenes| ensures scenes[j].name == scenes[1..][j - 1].name { }
    }
  }

  /** When names are distinct, searching for the name at position k finds k. */
  lemma FirstIndexOfName(scenes: seq<SceneItem>, k: nat)
    requires DistinctNames(scenes)
    requires k < |scenes|
    ensures FirstIndex(scenes, scenes[k].name) == Some(k)
  {
    FirstIndexIsFirst(scenes, scenes[k].name);
  }

  /** Searching the catalog finds a name exactly when it is a catalog name. */
  lemma FirstIndexInCatalog(name: string)
    ensures FirstIndex(Catalog, name).Some? <==> name in Names()
  {
    var r := FirstIndex(Catalog, name);
    FirstIndexIsFirst(Catalog, name);
    if name in Names() {
      var k :| 0 <= k < |Names()| && Names()[k] == name;
      assert Catalog[k].name == name;
    }
    if r.Some? {
      assert Names()[r.value] == name;
    }
  }

  /** One step back, wrapping from the first position to the last. */
  function Prev(i: nat, n: nat): (r: nat)
    requires i < n
    ensures r < n
    ensures r == if i == 0 then n - 1 else i - 1
  {
    (i - 1 + n) % n
  }

  /** One step forward, wrapping from the last position to the first. */
  function Next(i: nat, n: nat): (r: nat)
    requires i < n
    ensures r < n
    ensures r == if i == n - 1 then 0 else i + 1
  {
    (i + 1) % n
  }

  /** The position reached from i by `count` steps forward. */
  function Forward(i: nat, count: nat, n: nat): (r: nat)
    requires i < n
    ensures r < n
  {
    if count == 0 then i else Next(Forward(i, count - 1, n), n)
  }

  /** Up to n steps forward from i land on i + count, less n once past the
      end; so n steps forward come back to i. */
  lemma {:induction false} ForwardWraps(i: nat, count: nat, n: nat)
    requires i < n && count <= n
    ensures Forward(i, count, n) == if i + count < n then i + count else i + count - n
  {
    if count > 0 {
      ForwardWraps(i, count - 1, n);
    }
  }

  /** Stepping back and forward undo each other. */
  lemma PrevNextInverse(i: nat, n: nat)
    requires i < n
    ensures Next(Prev(i, n), n) == i
    ensures Prev(Next(i, n), n) == i
  {
  }
}
