// The UI layer enumeration (assets/Core/UI/UILayer.ts) and the view
// configuration record (assets/Core/UI/UIConfig.ts).
module UITypes {
  import opened Common

  datatype UILayer = Background | Normal | Popup | Dialog | Toast | Loading | Top

  /** The numeric value of each enum member. */
  function LayerValue(l: UILayer): int
  {
    match l
    case Background => 0
    case Normal => 1
    case Popup => 2
    case Dialog => 3
    case Toast => 4
    case Loading => 5
    case Top => 10
  }

  /** The name each enum member is declared with. */
  function LayerName(l: UILayer): string
  {
    match l
    case Background => "BACKGROUND"
    case Normal => "NORMAL"
    case Popup => "POPUP"
    case Dialog => "DIALOG"
    case Toast => "TOAST"
    case Loading => "LOADING"
    case Top => "TOP"
  }

  /** The members in declaration order. */
  const Layers: seq<UILayer> := [Background, Normal, Popup, Dialog, Toast, Loading, Top]

  /**
   * A key of the compiled enum object: the object maps each member name to
   * its value and each value back to its name.
   */
  datatype EnumKey = ValueKey(value: int) | NameKey(member: UILayer)

  /**
   * The keys in the order the language lists them: the integer-like
   * reverse-mapping keys first, ascending, then the member names in
   * declaration order.
   */
  const EnumKeys: seq<EnumKey> :=
    [ValueKey(0), ValueKey(1), ValueKey(2), ValueKey(3), ValueKey(4), ValueKey(5), ValueKey(10)]
    + [NameKey(Background), NameKey(Normal), NameKey(Popup), NameKey(Dialog), NameKey(Toast), NameKey(Loading), NameKey(Top)]

  /** `typeof UILayer[key] === "number"`: only a member name maps to a number. */
  predicate MapsToNumber(k: EnumKey)
  {
    k.NameKey?
  }

  /** The members whose keys survive the numeric filter, in iteration order. */
  function NumericMembers(keys: seq<EnumKey>): seq<UILayer>
  {
    if keys == [] then []
    else (if MapsToNumber(keys[0]) then [keys[0].member] else []) + NumericMembers(keys[1..])
  }

  /** The member with a given numeric value, if any. */
  function LayerOf(v: int): (r: Option<UILayer>)
    ensures r.Some? ==> LayerValue(r.value) == v
    ensures r.None? ==> forall l :: LayerValue(l) != v
  {
    if v == 0 then Some(Background)
    else if v == 1 then Some(Normal)
    else if v == 2 then Some(Popup)
    else if v == 3 then Some(Dialog)
    else if v == 4 then Some(Toast)
    else if v == 5 then Some(Loading)
    else if v == 10 then Some(Top)
    else None
  }

  /**
   * Filtering the enum keys by "its value is a number" yields every member
   * exactly once, in declaration order, and no two members share a value.
   */
  lemma EnumFilterYieldsEachMember()
    ensures NumericMembers(EnumKeys) == Layers
  {
    var k := EnumKeys;
    assert NumericMembers(k[14..]) == [];
    assert NumericMembers(k[13..]) == [Top];
    assert NumericMembers(k[12..]) == [Loading, Top];
    assert NumericMembers(k[11..]) == [Toast, Loading, Top];
    assert NumericMembers(k[10..]) == [Dialog, Toast, Loading, Top];
    assert NumericMembers(k[9..]) == [Popup, Dialog, Toast, Loading, Top];
    assert NumericMembers(k[8..]) == [Normal, Popup, Dialog, Toast, Loading, Top];
    assert NumericMembers(k[7..]) == Layers;
    assert NumericMembers(k[6..]) == Layers;
    assert NumericMembers(k[5..]) == Layers;
    assert NumericMembers(k[4..]) == Layers;
    assert NumericMembers(k[3..]) == Layers;
    assert NumericMembers(k[2..]) == Layers;
    assert NumericMembers(k[1..]) == Layers;
    assert k[0..] == k;
  }

  /**
   * UIConfig: the view's id, its prefab path, its layer value (any number,
   * since callers are not held to enum members), whether its instance is
   * kept when closed (`cache`, absent = false) and its unused priority.
   */
  datatype UIConfig = UIConfig(uiID: string, prefabPath: string, layer: int, cache: bool, priority: Option<int>)
}
