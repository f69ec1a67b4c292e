/**
 * The tree view element (TreeView): it renders an object graph as nested
 * disclosure layers. Every value is classified by `getTypeOf`; containers
 * (objects and arrays) become layers listing their own keys, anything else
 * becomes a leaf with a short label. `createLayer` keeps the objects on the
 * current descent path in `refSet` and marks a layer "circular" instead of
 * descending into an object already on that path; `createSafeLayer`, used for
 * parsed JSON, descends without that check.
 *
 * The object graph is a heap of nodes addressed by number; a container value
 * is a reference into it, so the graph may share nodes and hold cycles.
 */
module TreeViewWidget {
  import opened Wrappers
  import Strings

  /** A JavaScript value: a primitive, a function (by its source text), or a reference to an object or array. */
  datatype Value =
    | VNull
    | VUndefined
    | VBool(b: bool)
    | VNum(n: int)
    | VStr(s: string)
    | VFunc(source: string)
    | VRef(id: nat)

  /** An object with its own properties in order, or an array with its elements. */
  datatype Node = ObjectNode(fields: seq<(string, Value)>) | ArrayNode(elems: seq<Value>)

  type Heap = map<nat, Node>

  /** The seven type symbols of the tree view; `Description` is each symbol's description. */
  datatype TypeTag = TObject | TArray | TString | TFunction | TNull | TUndefined | TNumber
  {
    function Description(): string {
      match this
      case TObject => "object"
      case TArray => "array"
      case TString => "string"
      case TFunction => "function"
      case TNull => "null"
      case TUndefined => "undefined"
      case TNumber => "number"
    }

    /** `isContainer`. */
    predicate IsContainer() {
      this == TObject || this == TArray
    }
  }

  /**
   * `getTypeOf`: null, undefined, array versus object, string, function and
   * number each get their own type; anything else (a boolean) is undefined.
   */
  function TypeOf(heap: Heap, v: Value): (t: TypeTag)
    requires v.VRef? ==> v.id in heap
    ensures t.IsContainer() <==> v.VRef?
    ensures t == TArray <==> v.VRef? && heap[v.id].ArrayNode?
    ensures t == TUndefined <==> v.VUndefined? || v.VBool?
    ensures t == TNull <==> v.VNull?
    ensures t == TString <==> v.VStr?
    ensures t == TNumber <==> v.VNum?
    ensures t == TFunction <==> v.VFunc?
  {
    match v
    case VNull => TNull
    case VUndefined => TUndefined
    case VBool(_) => TUndefined
    case VNum(_) => TNumber
    case VStr(_) => TString
    case VFunc(_) => TFunction
    case VRef(id) => if heap[id].ArrayNode? then TArray else TObject
  }

  // ----- Keys -----

  /** Each own key of a node with its value; an array's keys are its indices. */
  function Entries(node: Node): seq<(string, Value)> {
    match node
    case ObjectNode(fs) => fs
    case ArrayNode(xs) => seq(|xs|, i requires 0 <= i < |xs| => (Strings.IntToString(i), xs[i]))
  }

  /** `Object.getOwnPropertyNames`: the own keys in order, and for an array a final "length". */
  function OwnPropertyNames(node: Node): seq<string> {
    var es := Entries(node);
    var names := seq(|es|, i requires 0 <= i < |es| => es[i].0);
    if node.ArrayNode? then names + ["length"] else names
  }

  /** The key list of `createBaseLayer` and `createRootLayer`: an array's list is popped once. */
  function LayerKeys(node: Node): seq<string> {
    var names := OwnPropertyNames(node);
    if node.ArrayNode? then names[..|names| - 1] else names
  }

  /** The key list of a layer names its entries one for one, and an array's holds exactly its indices. */
  lemma LayerKeysAreEntries(node: Node)
    ensures |LayerKeys(node)| == |Entries(node)|
    ensures forall i :: 0 <= i < |Entries(node)| ==> LayerKeys(node)[i] == Entries(node)[i].0
    ensures node.ArrayNode? ==> forall i :: 0 <= i < |node.elems| ==> LayerKeys(node)[i] == Strings.IntToString(i)
    ensures node.ArrayNode? ==> "length" !in LayerKeys(node)
  {
    var names := OwnPropertyNames(node);
    if node.ArrayNode? {
      var es := Entries(node);
      assert names[..|names| - 1] == seq(|es|, i requires 0 <= i < |es| => es[i].0);
      forall i | 0 <= i < |node.elems| ensures LayerKeys(node)[i] != "length" {
        assert '0' <= Strings.IntToString(i)[0] <= '9';
      }
    }
  }

  /**
   * Whether a value is expanded as a layer: a reference to a node of the
   * heap. A reference outside the heap (which no real object graph has)
   * reads as undefined.
   */
  predicate Expands(heap: Heap, v: Value) {
    v.VRef? && v.id in heap
  }

  /** The value a leaf shows: a reference outside the heap is undefined. */
  function Shown(v: Value): (r: Value)
    ensures !r.VRef? && (!v.VRef? ==> r == v)
  {
    if v.VRef? then VUndefined else v
  }

  // ----- Rendered layers -----

  /**
   * What a call renders: a leaf (its summary's class and `data-label`, its
   * div's text, and whether the div has class "string"), or a layer (its
   * summary's class and `data-label`, whether it is marked "circular", and
   * the layers and leaves appended to it).
   */
  datatype Tree =
    | Leaf(name: string, cls: string, dataLabel: Option<string>, text: string, quoted: bool)
    | Layer(name: string, cls: string, dataLabel: Option<string>, circular: bool, children: seq<Tree>)

  /** The longest label shown whole. */
  const MAX_LABEL: nat := 20

  /**
   * `createLeafNode`. A string is labelled by itself, or when longer than 20
   * code units by its first 17 code units and "..."; a number by its decimal form (a
   * number has no `length`, so it is never cut); null and undefined show
   * their type name; a function shows its source.
   */
  function LeafOf(name: string, v: Value): (t: Tree)
    requires !v.VRef?
    ensures t.Leaf? && t.name == name && t.cls == TypeOf(map[], v).Description()
    ensures t.dataLabel.Some? <==> v.VStr? || v.VNum?
    ensures t.quoted <==> v.VStr?
  {
    var cls := TypeOf(map[], v).Description();
    match v
    case VStr(s) =>
      Leaf(name, cls, Some(if Strings.Utf16Length(s) > MAX_LABEL then Strings.Utf16Prefix(s, 17) + "..." else s), s, true)
    case VNum(n) => Leaf(name, cls, Some(Strings.IntToString(n)), Strings.IntToString(n), false)
    case VNull => Leaf(name, cls, None, cls, false)
    case VUndefined => Leaf(name, cls, None, cls, false)
    case VBool(_) => Leaf(name, cls, None, cls, false)
    case VFunc(src) => Leaf(name, cls, None, src, false)
  }

  /**
   * A string leaf's label has at most 20 code units: the string itself when
   * it fits, otherwise a prefix of it and "...", 19 or 20 code units in all;
   * without characters beyond U+FFFF the prefix is the first 17 characters.
   */
  lemma StringLabelBounded(name: string, s: string)
    ensures var l := LeafOf(name, VStr(s)).dataLabel.value;
      && Strings.Utf16Length(l) <= MAX_LABEL
      && (l == s <==> Strings.Utf16Length(s) <= MAX_LABEL)
      && (Strings.Utf16Length(s) > MAX_LABEL ==>
            && |l| >= 3 && l[..|l| - 3] <= s && l[|l| - 3..] == "..."
            && Strings.Utf16Length(l) >= MAX_LABEL - 1
            && (Strings.Bmp(s) ==> |l| == MAX_LABEL && l[..17] == s[..17]))
  {
    var l := LeafOf(name, VStr(s)).dataLabel.value;
    if Strings.Utf16Length(s) > MAX_LABEL {
      var p := Strings.Utf16Prefix(s, 17);
      assert l == p + "...";
      assert l[..|l| - 3] == p && l[|l| - 3..] == "...";
      Strings.Utf16PrefixLength(s, 17);
      Strings.UnitsAppend(p, "...");
      Strings.Utf16LengthBmp("...");
      if Strings.Bmp(s) {
        Strings.Utf16LengthBmp(s);
        Strings.Utf16PrefixBmp(s, 17);
      }
    }
  }

  /** A boolean is rendered as undefined: class "undefined", text "undefined", no label. */
  lemma BooleanShownUndefined(name: string, b: bool)
    ensures LeafOf(name, VBool(b)) == Leaf(name, "undefined", None, "undefined", false)
  {
  }

  /** The summary `createBaseLayer` prepares: the container's type, and for an array its length. */
  function BaseLayer(heap: Heap, name: string, id: nat, circular: bool, children: seq<Tree>): (t: Tree)
    requires id in heap
    ensures t.Layer? && t.name == name && t.circular == circular && t.children == children
    ensures t.cls == TypeOf(heap, VRef(id)).Description()
    ensures t.dataLabel.Some? <==> heap[id].ArrayNode?
  {
    var node := heap[id];
    Layer(name, TypeOf(heap, VRef(id)).Description(),
          if node.ArrayNode? then Some(Strings.IntToString(|node.elems|)) else None,
          circular, children)
  }

  lemma Shrink(dom: set<nat>, path: set<nat>, id: nat)
    requires id in dom && id !in path
    ensures |dom - (path + {id})| == |dom - path| - 1
  {
    assert dom - (path + {id}) == (dom - path) - {id};
  }

  /**
   * `createLayer(name, obj, refSet)` with `path` the objects in `refSet`: an
   * object already on the path gives an empty layer marked circular;
   * otherwise each entry becomes a layer or a leaf, rendered with the object
   * added to the path.
   */
  function LayerOf(heap: Heap, name: string, id: nat, path: set<nat>): (t: Tree)
    requires id in heap
    ensures t.Layer? && t.name == name
    ensures t.circular <==> id in path
    ensures t.circular ==> t.children == []
    ensures !t.circular ==> |t.children| == |Entries(heap[id])|
    decreases |heap.Keys - path|, 1, 0
  {
    if id in path then BaseLayer(heap, name, id, true, [])
    else
      Shrink(heap.Keys, path, id);
      BaseLayer(heap, name, id, false, Items(heap, id, path + {id}, |Entries(heap[id])|))
  }

  /** The first i entries of node `id`, rendered with `path`. */
  function Items(heap: Heap, id: nat, path: set<nat>, i: nat): (r: seq<Tree>)
    requires id in heap && i <= |Entries(heap[id])|
    ensures |r| == i
    ensures forall k :: 0 <= k < i ==> r[k].name == Entries(heap[id])[k].0
    decreases |heap.Keys - path| + 1, 0, i
  {
    if i == 0 then []
    else Items(heap, id, path, i - 1) + [Item(heap, Entries(heap[id])[i - 1], path)]
  }

  /** One entry: a container becomes a layer, anything else a leaf. */
  function Item(heap: Heap, e: (string, Value), path: set<nat>): (t: Tree)
    ensures t.name == e.0 && (t.Layer? <==> Expands(heap, e.1))
    decreases |heap.Keys - path| + 1, 0, 0
  {
    if Expands(heap, e.1) then LayerOf(heap, e.0, e.1.id, path) else LeafOf(e.0, Shown(e.1))
  }

  /** Every path through t has at most h levels. */
  predicate HeightAtMost(t: Tree, h: int)
    decreases h
  {
    h >= 1 && (t.Layer? ==> forall k :: 0 <= k < |t.children| ==> HeightAtMost(t.children[k], h - 1))
  }

  /**
   * Rendering terminates on cyclic graphs: a layer rendered with `path` is
   * at most one level deeper than the number of nodes off the path.
   */
  lemma {:induction false} LayerHeight(heap: Heap, name: string, id: nat, path: set<nat>)
    requires id in heap
    ensures HeightAtMost(LayerOf(heap, name, id, path), |heap.Keys - path| + 1)
    decreases |heap.Keys - path|, 1
  {
    if id !in path {
      Shrink(heap.Keys, path, id);
      ItemsHeight(heap, id, path + {id}, |Entries(heap[id])|);
    }
  }

  lemma {:induction false} ItemsHeight(heap: Heap, id: nat, path: set<nat>, i: nat)
    requires id in heap && i <= |Entries(heap[id])|
    ensures forall k :: 0 <= k < i ==> HeightAtMost(Items(heap, id, path, i)[k], |heap.Keys - path| + 1)
    decreases |heap.Keys - path| + 1, 0, i
  {
    if i > 0 {
      ItemsHeight(heap, id, path, i - 1);
      var e := Entries(heap[id])[i - 1];
      var r := Items(heap, id, path, i);
      assert r == Items(heap, id, path, i - 1) + [Item(heap, e, path)];
      if Expands(heap, e.1) {
        LayerHeight(heap, e.0, e.1.id, path);
      }
      assert HeightAtMost(r[i - 1], |heap.Keys - path| + 1);
    }
  }

  /** No layer of t is marked circular. */
  predicate NoCircular(t: Tree) {
    t.Layer? ==> !t.circular && forall k :: 0 <= k < |t.children| ==> NoCircular(t.children[k])
  }

  // ----- Layers without the cycle check -----

  /**
   * `createSafeLayer`, given `fuel` stack frames: it descends without
   * looking at any path, and is None when the frames run out (the engine's
   * stack overflow).
   */
  function SafeLayerOf(heap: Heap, name: string, id: nat, fuel: nat): (r: Option<Tree>)
    requires id in heap
    ensures r.Some? ==> r.value.Layer? && r.value.name == name && !r.value.circular
    decreases fuel, 1, 0
  {
    if fuel == 0 then None
    else
      var items := SafeItems(heap, id, fuel - 1, |Entries(heap[id])|);
      if items.None? then None else Some(BaseLayer(heap, name, id, false, items.value))
  }

  function SafeItems(heap: Heap, id: nat, fuel: nat, i: nat): (r: Option<seq<Tree>>)
    requires id in heap && i <= |Entries(heap[id])|
    ensures r.Some? ==> |r.value| == i
    decreases fuel + 1, 0, i
  {
    if i == 0 then Some([])
    else
      var front := SafeItems(heap, id, fuel, i - 1);
      var last := SafeItem(heap, Entries(heap[id])[i - 1], fuel);
      if front.None? || last.None? then None else Some(front.value + [last.value])
  }

  function SafeItem(heap: Heap, e: (string, Value), fuel: nat): (r: Option<Tree>)
    ensures !Expands(heap, e.1) ==> r == Some(LeafOf(e.0, Shown(e.1)))
    decreases fuel + 1, 0, 0
  {
    if Expands(heap, e.1) then SafeLayerOf(heap, e.0, e.1.id, fuel) else Some(LeafOf(e.0, Shown(e.1)))
  }

  lemma ItemsStep(heap: Heap, id: nat, path: set<nat>, i: nat)
    requires id in heap && i < |Entries(heap[id])|
    ensures Items(heap, id, path, i + 1) == Items(heap, id, path, i) + [Item(heap, Entries(heap[id])[i], path)]
  {
  }

  lemma SafeItemsStep(heap: Heap, id: nat, fuel: nat, i: nat)
    requires id in heap && i < |Entries(heap[id])|
    ensures var front := SafeItems(heap, id, fuel, i);
      var c := SafeItem(heap, Entries(heap[id])[i], fuel);
      SafeItems(heap, id, fuel, i + 1) == if front.None? || c.None? then None else Some(front.value + [c.value])
  {
  }

  lemma {:induction false} SafeItemsNone(heap: Heap, id: nat, fuel: nat, i: nat, k: nat)
    requires id in heap && k < i <= |Entries(heap[id])|
    requires SafeItem(heap, Entries(heap[id])[k], fuel).None?
    ensures SafeItems(heap, id, fuel, i).None?
    decreases i
  {
    if k < i - 1 {
      SafeItemsNone(heap, id, fuel, i - 1, k);
    }
    SafeItemsStep(heap, id, fuel, i - 1);
  }

  /** An object that holds itself overflows the stack however deep the stack is. */
  lemma {:induction false} SafeSelfLoop(heap: Heap, name: string, id: nat, fuel: nat, k: nat)
    requires id in heap
    requires k < |Entries(heap[id])| && Entries(heap[id])[k].1 == VRef(id)
    ensures SafeLayerOf(heap, name, id, fuel).None?
    decreases fuel
  {
    if fuel > 0 {
      var e := Entries(heap[id])[k];
      SafeSelfLoop(heap, e.0, id, fuel - 1, k);
      SafeItemsNone(heap, id, fuel - 1, |Entries(heap[id])|, k);
    }
  }

  /** A layer rendered without the cycle check never carries a circular mark. */
  lemma {:induction false} SafeNoCircular(heap: Heap, name: string, id: nat, fuel: nat)
    requires id in heap && SafeLayerOf(heap, name, id, fuel).Some?
    ensures NoCircular(SafeLayerOf(heap, name, id, fuel).value)
    decreases fuel, 1
  {
    SafeItemsNoCircular(heap, id, fuel - 1, |Entries(heap[id])|);
  }

  lemma {:induction false} SafeItemsNoCircular(heap: Heap, id: nat, fuel: nat, i: nat)
    requires id in heap && i <= |Entries(heap[id])| && SafeItems(heap, id, fuel, i).Some?
    ensures forall k :: 0 <= k < i ==> NoCircular(SafeItems(heap, id, fuel, i).value[k])
    decreases fuel + 1, 0, i
  {
    if i > 0 {
      SafeItemsNoCircular(heap, id, fuel, i - 1);
      var e := Entries(heap[id])[i - 1];
      if Expands(heap, e.1) {
        SafeNoCircular(heap, e.0, e.1.id, fuel);
      }
    }
  }

  /**
   * Where `createLayer` marks nothing circular, the checked and the
   * unchecked renderings agree whenever the latter does not overflow.
   */
  lemma {:induction false} SafeAgreesWithLayer(heap: Heap, name: string, id: nat, path: set<nat>, fuel: nat)
    requires id in heap
    requires SafeLayerOf(heap, name, id, fuel).Some? && NoCircular(LayerOf(heap, name, id, path))
    ensures SafeLayerOf(heap, name, id, fuel).value == LayerOf(heap, name, id, path)
    decreases fuel, 1
  {
    Shrink(heap.Keys, path, id);
    var t := LayerOf(heap, name, id, path);
    assert t.children == Items(heap, id, path + {id}, |Entries(heap[id])|);
    SafeItemsAgree(heap, id, path + {id}, fuel - 1, |Entries(heap[id])|);
  }

  lemma {:induction false} SafeItemsAgree(heap: Heap, id: nat, path: set<nat>, fuel: nat, i: nat)
    requires id in heap && i <= |Entries(heap[id])|
    requires SafeItems(heap, id, fuel, i).Some?
    requires forall k :: 0 <= k < i ==> NoCircular(Items(heap, id, path, i)[k])
    ensures SafeItems(heap, id, fuel, i).value == Items(heap, id, path, i)
    decreases fuel + 1, 0, i
  {
    if i > 0 {
      var e := Entries(heap[id])[i - 1];
      var r := Items(heap, id, path, i);
      var front := Items(heap, id, path, i - 1);
      assert r == front + [Item(heap, e, path)];
      assert forall k :: 0 <= k < i - 1 ==> r[k] == front[k];
      SafeItemsAgree(heap, id, path, fuel, i - 1);
      if Expands(heap, e.1) {
        assert NoCircular(r[i - 1]);
        SafeAgreesWithLayer(heap, e.0, e.1.id, path, fuel);
      }
    }
  }

  // ----- The root -----

  /** One entry of the root: a container becomes a checked layer, or an unchecked one for JSON. */
  function RootItem(heap: Heap, e: (string, Value), path: set<nat>, isJson: bool, fuel: nat): (r: Option<Tree>)
    ensures !isJson ==> r == Some(Item(heap, e, path))
    ensures isJson ==> r == SafeItem(heap, e, fuel)
  {
    if !Expands(heap, e.1) then Some(LeafOf(e.0, Shown(e.1)))
    else if isJson then SafeLayerOf(heap, e.0, e.1.id, fuel)
    else Some(LayerOf(heap, e.0, e.1.id, path))
  }

  /** `createRootLayer` over the first i entries of the root; the root itself is not put on the path. */
  function RootItems(heap: Heap, id: nat, path: set<nat>, isJson: bool, fuel: nat, i: nat): (r: Option<seq<Tree>>)
    requires id in heap && i <= |Entries(heap[id])|
    ensures r.Some? ==> |r.value| == i
  {
    if i == 0 then Some([])
    else
      var front := RootItems(heap, id, path, isJson, fuel, i - 1);
      var last := RootItem(heap, Entries(heap[id])[i - 1], path, isJson, fuel);
      if front.None? || last.None? then None else Some(front.value + [last.value])
  }

  lemma {:induction false} RootItemsNone(heap: Heap, id: nat, path: set<nat>, isJson: bool, fuel: nat, i: nat, j: nat)
    requires id in heap && i <= j <= |Entries(heap[id])|
    requires RootItems(heap, id, path, isJson, fuel, i).None?
    ensures RootItems(heap, id, path, isJson, fuel, j).None?
    decreases j
  {
    if i < j {
      RootItemsNone(heap, id, path, isJson, fuel, i, j - 1);
      RootItemsStep(heap, id, path, isJson, fuel, j - 1);
    } else {
      assert i == j;
    }
  }

  lemma RootItemsStep(heap: Heap, id: nat, path: set<nat>, isJson: bool, fuel: nat, i: nat)
    requires id in heap && i < |Entries(heap[id])|
    ensures var front := RootItems(heap, id, path, isJson, fuel, i);
      var c := RootItem(heap, Entries(heap[id])[i], path, isJson, fuel);
      RootItems(heap, id, path, isJson, fuel, i + 1) == if front.None? || c.None? then None else Some(front.value + [c.value])
  {
  }

  /** Outside JSON mode the root's entries never fail, and they are the layer's items without the root on the path. */
  lemma {:induction false} RootItemsChecked(heap: Heap, id: nat, path: set<nat>, fuel: nat, i: nat)
    requires id in heap && i <= |Entries(heap[id])|
    ensures RootItems(heap, id, path, false, fuel, i) == Some(Items(heap, id, path, i))
  {
    if i > 0 {
      RootItemsChecked(heap, id, path, fuel, i - 1);
    }
  }

  /** The example graph `root = {self: root}`. */
  const SelfRoot: Heap := map[0 := ObjectNode([("self", VRef(0))])]

  /**
   * The root is never on the path, so a property pointing back at the root
   * is expanded once, and only its own back-reference is marked circular.
   */
  lemma RootBackReferenceExpandedOnce()
    ensures RootItems(SelfRoot, 0, {}, false, 0, 1)
      == Some([Layer("self", "object", None, false, [Layer("self", "object", None, true, [])])])
  {
    var node := ObjectNode([("self", VRef(0))]);
    assert SelfRoot.Keys == {0} && SelfRoot[0] == node;
    assert Entries(node) == [("self", VRef(0))];
    var inner := LayerOf(SelfRoot, "self", 0, {0});
    assert inner == Layer("self", "object", None, true, []);
    assert Items(SelfRoot, 0, {0}, 1) == [inner];
    var none: set<nat> := {}; assert none + {0} == {0};
    var outer := LayerOf(SelfRoot, "self", 0, {});
    assert outer == Layer("self", "object", None, false, [inner]);
    assert RootItem(SelfRoot, ("self", VRef(0)), {}, false, 0) == Some(outer);
    assert RootItems(SelfRoot, 0, {}, false, 0, 0) == Some([]);
    assert Entries(SelfRoot[0])[0] == ("self", VRef(0));
    assert RootItems(SelfRoot, 0, {}, false, 0, 1) == Some([] + [outer]);
    assert [] + [outer] == [outer];
  }

  /** The example graph `root = {a: shared, b: shared}` with `shared = {}`. */
  const Diamond: Heap := map[0 := ObjectNode([("a", VRef(1)), ("b", VRef(1))]), 1 := ObjectNode([])]

  /** An object reached twice, but never through itself, is expanded both times. */
  lemma SharedObjectExpandedTwice()
    ensures RootItems(Diamond, 0, {}, false, 0, 2)
      == Some([Layer("a", "object", None, false, []), Layer("b", "object", None, false, [])])
  {
    var root := ObjectNode([("a", VRef(1)), ("b", VRef(1))]);
    assert Diamond.Keys == {0, 1} && Diamond[0] == root && Diamond[1] == ObjectNode([]);
    assert Entries(root) == [("a", VRef(1)), ("b", VRef(1))];
    assert Items(Diamond, 1, {1}, 0) == [];
    var none: set<nat> := {}; assert none + {1} == {1};
    var a := LayerOf(Diamond, "a", 1, {});
    var b := LayerOf(Diamond, "b", 1, {});
    assert a == Layer("a", "object", None, false, []);
    assert b == Layer("b", "object", None, false, []);
    assert RootItem(Diamond, ("a", VRef(1)), {}, false, 0) == Some(a);
    assert RootItem(Diamond, ("b", VRef(1)), {}, false, 0) == Some(b);
    assert RootItems(Diamond, 0, {}, false, 0, 0) == Some([]);
    assert Entries(Diamond[0])[0] == ("a", VRef(1));
    assert RootItems(Diamond, 0, {}, false, 0, 1) == Some([] + [a]);
    assert [] + [a] == [a];
    assert RootItems(Diamond, 0, {}, false, 0, 1) == Some([a]);
    assert Entries(Diamond[0])[1] == ("b", VRef(1));
    assert RootItems(Diamond, 0, {}, false, 0, 2) == Some([a] + [b]);
    assert [a] + [b] == [a, b];
  }

  /** The element: its `refSet` (the objects on the current descent path) and its root summary and content. */
  class TreeView {
    var refSet: set<nat>
    var rootClass: string
    var rootLabel: Option<string>
    var content: seq<Tree>

    /** Between calls no object is on the path. */
    predicate Valid()
      reads this
    {
      refSet == {}
    }

    /** The summary starts without a class; "root" goes on the details element. */
    constructor()
      ensures Valid() && content == [] && rootLabel.None? && rootClass == ""
    {
      refSet := {};
      rootClass := "";
      rootLabel := None;
      content := [];
    }

    /** `createLayer(name, obj, this.refSet)`: renders `LayerOf` and leaves `refSet` as it found it. */
    method CreateLayer(heap: Heap, name: string, id: nat) returns (t: Tree)
      requires id in heap
      modifies this
      ensures refSet == old(refSet)
      ensures rootClass == old(rootClass) && rootLabel == old(rootLabel) && content == old(content)
      ensures t == LayerOf(heap, name, id, old(refSet))
      decreases |heap.Keys - refSet|, 1
    {
      if id in refSet {
        return BaseLayer(heap, name, id, true, []);
      }
      Shrink(heap.Keys, refSet, id);
      refSet := refSet + {id};
      var es := Entries(heap[id]);
      var children: seq<Tree> := [];
      var i := 0;
      while i < |es|
        invariant 0 <= i <= |es|
        invariant refSet == old(refSet) + {id}
        invariant rootClass == old(rootClass) && rootLabel == old(rootLabel) && content == old(content)
        invariant children == Items(heap, id, refSet, i)
      {
        var c := RenderItem(heap, es[i]);
        ItemsStep(heap, id, refSet, i);
        children := children + [c];
        i := i + 1;
      }
      assert children == Items(heap, id, old(refSet) + {id}, |es|);
      refSet := refSet - {id};
      assert refSet == old(refSet);
      t := BaseLayer(heap, name, id, false, children);
    }

    /** One pass of `createLayer`'s loop: a container's layer, or a leaf. */
    method RenderItem(heap: Heap, e: (string, Value)) returns (c: Tree)
        modifies this
      ensures refSet == old(refSet)
      ensures rootClass == old(rootClass) && rootLabel == old(rootLabel) && content == old(content)
      ensures c == Item(heap, e, old(refSet))
      decreases |heap.Keys - refSet| + 1, 0
    {
      if Expands(heap, e.1) {
        c := CreateLayer(heap, e.0, e.1.id);
      } else {
        c := LeafOf(e.0, Shown(e.1));
      }
    }

    /** `createSafeLayer` with `fuel` stack frames; None is the stack overflow it throws. */
    static method CreateSafeLayer(heap: Heap, name: string, id: nat, fuel: nat) returns (r: Option<Tree>)
      requires id in heap
      ensures r == SafeLayerOf(heap, name, id, fuel)
      decreases fuel, 1
    {
      if fuel == 0 {
        return None;
      }
      var es := Entries(heap[id]);
      var children: seq<Tree> := [];
      var i := 0;
      while i < |es|
        invariant 0 <= i <= |es|
        invariant SafeItems(heap, id, fuel - 1, i) == Some(children)
      {
        var c := RenderSafeItem(heap, es[i], fuel - 1);
        SafeItemsStep(heap, id, fuel - 1, i);
        if c.None? {
          SafeItemsNone(heap, id, fuel - 1, |es|, i);
          return None;
        }
        children := children + [c.value];
        i := i + 1;
      }
      r := Some(BaseLayer(heap, name, id, false, children));
    }

    /** One pass of `createSafeLayer`'s loop. */
    static method RenderSafeItem(heap: Heap, e: (string, Value), fuel: nat) returns (c: Option<Tree>)
        ensures c == SafeItem(heap, e, fuel)
      decreases fuel + 1, 0
    {
      if Expands(heap, e.1) {
        c := CreateSafeLayer(heap, e.0, e.1.id, fuel);
      } else {
        c := Some(LeafOf(e.0, Shown(e.1)));
      }
    }

    /** `createRootLayer` for the root node `id`: its entries, without putting the root in `refSet`. */
    method CreateRootLayer(heap: Heap, id: nat, isJson: bool, fuel: nat) returns (r: Option<seq<Tree>>)
      requires id in heap
      modifies this
      ensures refSet == old(refSet)
      ensures rootClass == old(rootClass) && rootLabel == old(rootLabel) && content == old(content)
      ensures r == RootItems(heap, id, old(refSet), isJson, fuel, |Entries(heap[id])|)
    {
      var es := Entries(heap[id]);
      var items: seq<Tree> := [];
      var i := 0;
      while i < |es|
        invariant 0 <= i <= |es|
        invariant refSet == old(refSet)
        invariant rootClass == old(rootClass) && rootLabel == old(rootLabel) && content == old(content)
        invariant RootItems(heap, id, refSet, isJson, fuel, i) == Some(items)
      {
        var c: Option<Tree>;
        if isJson {
          c := RenderSafeItem(heap, es[i], fuel);
        } else {
          var t := RenderItem(heap, es[i]);
          c := Some(t);
        }
        RootItemsStep(heap, id, refSet, isJson, fuel, i);
        if c.None? {
          RootItemsNone(heap, id, refSet, isJson, fuel, i + 1, |es|);
          return None;
        }
        items := items + [c.value];
        i := i + 1;
      }
      r := Some(items);
    }

    /**
     * `setSource(some, isJson)`: the old content is removed, the root
     * summary takes the value's type (and an array's length); a container's
     * entries are then rendered and `refSet` cleared. `thrown` is the
     * overflow of an unchecked layer, which leaves the content empty.
     */
    method SetSource(heap: Heap, some: Value, isJson: bool, fuel: nat) returns (thrown: bool)
      requires (some.VRef? ==> some.id in heap) && Valid()
      modifies this
      ensures Valid()
      ensures rootClass == TypeOf(heap, some).Description()
      ensures rootLabel.Some? <==> some.VRef? && heap[some.id].ArrayNode?
      ensures some.VRef? && heap[some.id].ArrayNode? ==> rootLabel == Some(Strings.IntToString(|heap[some.id].elems|))
      ensures !some.VRef? ==> !thrown && content == []
      ensures some.VRef? ==>
        var items := RootItems(heap, some.id, {}, isJson, fuel, |Entries(heap[some.id])|);
        thrown == items.None? && content == (if items.Some? then items.value else [])
      ensures thrown ==> isJson
    {
      while |content| > 0
        invariant refSet == old(refSet)
        decreases |content|
      {
        content := content[1..];
      }
      var t := TypeOf(heap, some);
      rootClass := t.Description();
      if t == TArray {
        rootLabel := Some(Strings.IntToString(|heap[some.id].elems|));
      } else {
        rootLabel := None;
      }
      thrown := false;
      if t.IsContainer() {
        var items := CreateRootLayer(heap, some.id, isJson, fuel);
        if items.None? {
          if !isJson {
            RootItemsChecked(heap, some.id, {}, fuel, |Entries(heap[some.id])|);
          }
          return true;
        }
        content := content + items.value;
        refSet := {};
      }
    }
  }
}
