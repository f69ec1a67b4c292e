/**
 * The tab-view widget: a registry of tab names, the view boxes in child
 * order with their visibility and the selection state of their tabs, and
 * the name of the shown tab.
 */
module TabViewWidget {
  import opened Wrappers
  import Strings

  /**
   * A view box child: its `data-name`, its `hidden` flag, its `selected`
   * attribute, and whether its linked tab carries the "selected" class.
   */
  datatype View = View(name: string, hidden: bool, selected: bool, tabSelected: bool)

  // ----- Queries on the children -----

  /** The index of the first view named `name`, if any. */
  function NamedIndex(views: seq<View>, name: string): (r: Option<nat>)
    ensures r.Some? ==> r.value < |views| && views[r.value].name == name
    ensures r.Some? ==> forall j :: 0 <= j < r.value ==> views[j].name != name
    ensures r.None? ==> forall j :: 0 <= j < |views| ==> views[j].name != name
  {
    if views == [] then None
    else if views[0].name == name then Some(0)
    else match NamedIndex(views[1..], name)
      case None => None
      case Some(k) => Some(k + 1)
  }

  /** The index of the first view whose tab is selected (`activeTab`), if any. */
  function ActiveIndex(views: seq<View>): (r: Option<nat>)
    ensures r.Some? ==> r.value < |views| && views[r.value].tabSelected
    ensures r.Some? ==> forall j :: 0 <= j < r.value ==> !views[j].tabSelected
    ensures r.None? ==> forall j :: 0 <= j < |views| ==> !views[j].tabSelected
  {
    if views == [] then None
    else if views[0].tabSelected then Some(0)
    else match ActiveIndex(views[1..])
      case None => None
      case Some(k) => Some(k + 1)
  }

  /**
   * The widget's consistent states: at most one tab is selected, a view is
   * shown exactly when its tab is selected, and the selected view's name is
   * the value.
   */
  predicate Coherent(views: seq<View>, value: Option<string>) {
    (forall j, k :: 0 <= j < k < |views| && views[j].tabSelected ==> !views[k].tabSelected) &&
    (forall j :: 0 <= j < |views| ==> views[j].hidden == !views[j].tabSelected) &&
    (forall j :: 0 <= j < |views| && views[j].tabSelected ==> value == Some(views[j].name))
  }

  // ----- Setting the value -----

  /** The active view hidden and its tab unselected, then view `i` shown and its tab selected. */
  function Activate(views: seq<View>, i: nat): (r: seq<View>)
    requires i < |views|
    ensures |r| == |views|
    ensures forall j :: 0 <= j < |views| ==> r[j].name == views[j].name && r[j].selected == views[j].selected
    ensures !r[i].hidden && r[i].tabSelected
  {
    var a := ActiveIndex(views);
    var off := if a.Some? then views[a.value := views[a.value].(hidden := true, tabSelected := false)] else views;
    off[i := off[i].(hidden := false, tabSelected := true)]
  }

  /**
   * The `value` setter on the children and the value: an unknown name
   * changes nothing; a known one activates the first view of that name and
   * becomes the value.
   */
  function Assign(views: seq<View>, value: Option<string>, name: string): (r: (seq<View>, Option<string>))
    ensures |r.0| == |views|
    ensures NamedIndex(views, name).None? ==> r == (views, value)
    ensures NamedIndex(views, name).Some? ==> r.1 == Some(name)
  {
    match NamedIndex(views, name)
    case None => (views, value)
    case Some(i) => (Activate(views, i), Some(views[i].name))
  }

  /**
   * Activating a view in a consistent state leaves exactly that view shown
   * with its tab selected, every other view hidden and unselected, and the
   * state consistent with the view's name as the value.
   */
  lemma ActivateOnly(views: seq<View>, value: Option<string>, i: nat)
    requires i < |views| && Coherent(views, value)
    ensures var r := Activate(views, i);
      Coherent(r, Some(views[i].name)) &&
      forall j :: 0 <= j < |views| && j != i ==> r[j].hidden && !r[j].tabSelected
  {
    var r := Activate(views, i);
    var a := ActiveIndex(views);
    forall j | 0 <= j < |views| && j != i
      ensures r[j].hidden && !r[j].tabSelected
    {
      if a.Some? && j > a.value {
        assert views[a.value].tabSelected;
      }
    }
  }

  /** Setting a known name in a consistent state shows that view alone and keeps the state consistent. */
  lemma AssignKnown(views: seq<View>, value: Option<string>, name: string)
    requires Coherent(views, value)
    requires NamedIndex(views, name).Some?
    ensures var r := Assign(views, value, name);
      var i := NamedIndex(views, name).value;
      Coherent(r.0, r.1) && r.1 == Some(name) &&
      !r.0[i].hidden && r.0[i].tabSelected &&
      (forall j :: 0 <= j < |views| && j != i ==> r.0[j].hidden && !r.0[j].tabSelected) &&
      (forall j :: 0 <= j < |views| ==> r.0[j].name == views[j].name)
  {
    ActivateOnly(views, value, NamedIndex(views, name).value);
  }

  /** The setter keeps the state consistent, whatever the name. */
  lemma AssignCoherent(views: seq<View>, value: Option<string>, name: string)
    requires Coherent(views, value)
    ensures Coherent(Assign(views, value, name).0, Assign(views, value, name).1)
  {
    if NamedIndex(views, name).Some? {
      AssignKnown(views, value, name);
    }
  }

  // ----- Adding, connecting and removing views -----

  /** The name a view box without `data-name` gets: "tab-" and the child count, itself included. */
  function AutoName(childCount: nat): (r: string)
    ensures |r| > 4 && r[..4] == "tab-"
    ensures '0' <= r[4] <= '9'
  {
    "tab-" + Strings.IntToString(childCount)
  }

  /** A freshly connected view box: hidden, tab not selected. */
  function Fresh(name: string, selected: bool): View {
    View(name, true, selected, false)
  }

  /**
   * `ViewBox.connectedCallback` for a box appended after `views`: it is
   * named, registered and hidden; the first child or a box with `selected`
   * then becomes the value, any other box loses `selected`.
   */
  function Connected(views: seq<View>, value: Option<string>, dataName: Option<string>, selected: bool): (r: (seq<View>, Option<string>))
    ensures |r.0| == |views| + 1
    ensures views != [] && !selected ==> r.0[..|views|] == views && r.1 == value && r.0[|views|].hidden
    ensures r.0[|views|].name == dataName.GetOr(AutoName(|views| + 1))
  {
    var name := dataName.GetOr(AutoName(|views| + 1));
    if views == [] || selected then
      var a := Assign(views + [Fresh(name, selected)], value, name);
      assert (views + [Fresh(name, selected)])[|views|].name == name;
      a
    else (views + [Fresh(name, false)], value)
  }

  /** A connected box keeps a consistent state consistent. */
  lemma ConnectedCoherent(views: seq<View>, value: Option<string>, dataName: Option<string>, selected: bool)
    requires Coherent(views, value)
    ensures var r := Connected(views, value, dataName, selected); Coherent(r.0, r.1)
  {
    var name := dataName.GetOr(AutoName(|views| + 1));
    var grown := views + [Fresh(name, selected)];
    assert Coherent(grown, value);
    if views == [] || selected {
      AssignCoherent(grown, value, name);
    } else {
      assert Coherent(views + [Fresh(name, false)], value);
    }
  }

  /** The first box connected into an empty tab view is shown, its tab selected, its name the value. */
  lemma FirstBoxShown(value: Option<string>, dataName: Option<string>, selected: bool)
    ensures var name := dataName.GetOr(AutoName(1));
      Connected([], value, dataName, selected) == ([View(name, false, selected, true)], Some(name))
  {
    var name := dataName.GetOr(AutoName(1));
    assert NamedIndex([Fresh(name, selected)], name) == Some(0);
    assert ActiveIndex([Fresh(name, selected)]) == None;
    assert [] + [Fresh(name, selected)] == [Fresh(name, selected)];
    assert Activate([Fresh(name, selected)], 0) == [View(name, false, selected, true)];
  }

  /**
   * Automatic names can repeat: after "tab-1" is removed from "tab-1",
   * "tab-2", the next unnamed box is named "tab-2" as well, and the setter
   * then finds the older box of that name.
   */
  lemma AutoNameRepeats()
    ensures var views := [View(AutoName(2), false, false, true)];
      var r := Connected(views, Some(AutoName(2)), None, true);
      r.0[1].name == r.0[0].name && NamedIndex(r.0, AutoName(2)) == Some(0) && r.0[1].hidden
  {
    var views := [View(AutoName(2), false, false, true)];
    var grown := views + [Fresh(AutoName(2), true)];
    assert NamedIndex(grown, AutoName(2)) == Some(0);
    assert ActiveIndex(grown) == Some(0);
  }

  /** The children with view `i` removed. */
  function Without(views: seq<View>, i: nat): (r: seq<View>)
    requires i < |views|
    ensures |r| == |views| - 1
    ensures forall j :: 0 <= j < |r| ==> r[j] == if j < i then views[j] else views[j + 1]
  {
    views[..i] + views[i + 1..]
  }

  /** Removing a view keeps the state consistent; the value is left as it was, even when that view was shown. */
  lemma WithoutCoherent(views: seq<View>, value: Option<string>, i: nat)
    requires i < |views| && Coherent(views, value)
    ensures Coherent(Without(views, i), value)
  {
    var r := Without(views, i);
    forall j, k | 0 <= j < k < |r| && r[j].tabSelected
      ensures !r[k].tabSelected
    {
      var j' := if j < i then j else j + 1;
      var k' := if k < i then k else k + 1;
      assert r[j] == views[j'] && r[k] == views[k'] && j' < k';
    }
  }

  // ----- The element -----

  /** A tab-view element: the registered tab names, its view box children and `_value`. */
  class TabView {
    var tabIds: set<string>
    var views: seq<View>
    var value: Option<string>

    predicate Valid()
      reads this
    {
      Coherent(views, value)
    }

    constructor ()
      ensures Valid()
      ensures tabIds == {} && views == [] && value == None
    {
      tabIds, views, value := {}, [], None;
    }

    /** `findView(name)`: the first child named `name`, walking the children by index. */
    method FindView(name: string) returns (r: Option<nat>)
      ensures r == NamedIndex(views, name)
    {
      var idx := 0;
      while idx < |views|
        invariant 0 <= idx <= |views|
        invariant forall j :: 0 <= j < idx ==> views[j].name != name
      {
        if views[idx].name == name {
          return Some(idx);
        }
        idx := idx + 1;
      }
      return None;
    }

    /**
     * The `value` setter: for a known name the active view is hidden and its
     * tab unselected, then the found view is shown, its tab selected and its
     * name recorded; an unknown name changes nothing.
     */
    method SetValue(name: string)
      requires Valid()
      modifies this`views, this`value
      ensures Valid()
      ensures (views, value) == Assign(old(views), old(value), name)
    {
      AssignCoherent(views, value, name);
      var section := FindView(name);
      if section.Some? {
        var i := section.value;
        var active := ActiveIndex(views);
        if active.Some? {
          var a := active.value;
          views := views[a := views[a].(hidden := true, tabSelected := false)];
        }
        views := views[i := views[i].(hidden := false, tabSelected := true)];
        value := Some(views[i].name);
      }
    }

    /**
     * `ViewBox.connectedCallback` for a view box just appended as the last
     * child, with its `data-name` attribute if it has one and whether it
     * has `selected`.
     */
    method ConnectViewBox(dataName: Option<string>, selected: bool)
      requires Valid()
      modifies this
      ensures Valid()
      ensures tabIds == old(tabIds) + {dataName.GetOr(AutoName(|old(views)| + 1))}
      ensures (views, value) == Connected(old(views), old(value), dataName, selected)
    {
      ConnectedCoherent(views, value, dataName, selected);
      var name := dataName.GetOr(AutoName(|views| + 1));
      views := views + [Fresh(name, selected)];
      tabIds := tabIds + {name};
      if |views| == 1 || selected {
        SetValue(name);
      } else {
        views := views[|views| - 1 := views[|views| - 1].(selected := false)];
        assert views == old(views) + [Fresh(name, false)];
      }
    }

    /**
     * `addTab(name)`: an empty or registered name throws "tab name is not
     * unique" and changes nothing; otherwise the name is registered and a
     * view box of that name is appended and connected.
     */
    method AddTab(name: string) returns (thrown: bool)
      requires Valid()
      modifies this
      ensures Valid()
      ensures thrown <==> name == "" || name in old(tabIds)
      ensures thrown ==> tabIds == old(tabIds) && views == old(views) && value == old(value)
      ensures !thrown ==> tabIds == old(tabIds) + {name}
      ensures !thrown ==> (views, value) == Connected(old(views), old(value), Some(name), false)
    {
      if name == "" || name in tabIds {
        return true;
      }
      tabIds := tabIds + {name};
      ConnectViewBox(Some(name), false);
      return false;
    }

    /**
     * `removeTab(name)`: the first view of that name, if any, is removed
     * with its tab, and the name is unregistered either way; the value is
     * not touched.
     */
    method RemoveTab(name: string)
      requires Valid()
      modifies this`views, this`tabIds
      ensures Valid()
      ensures tabIds == old(tabIds) - {name}
      ensures views == match NamedIndex(old(views), name)
        case None => old(views)
        case Some(i) => Without(old(views), i)
    {
      var thing := FindView(name);
      if thing.Some? {
        WithoutCoherent(views, value, thing.value);
        views := views[..thing.value] + views[thing.value + 1..];
      }
      tabIds := tabIds - {name};
    }
  }
}
