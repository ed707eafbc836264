/**
 * The payloads of the page's `.collection-item` elements and the resolution
 * of a group: which items are navigable together, and where the clicked one
 * stands among them.
 *
 * An item is identified by its position in the NodeList of `.collection-item`
 * elements, which is document order; the DOM node itself is abstracted away.
 */
module GalleryGroups {
  import opened Wrappers

  /** One image reference of a payload's `items` list; only `url` is read. */
  datatype ImageRef = ImageRef(url: string)

  /** A parsed payload: its `group` value and its `items` list. */
  datatype Data<G> = Data(group: G, items: seq<ImageRef>)

  /**
   * The `.w-json` node of an item. `parsed` is what JSON.parse makes of its
   * text: None when parsing throws, or when it yields a value the source
   * treats as false.
   */
  datatype Script<G> = Script(parsed: Option<Data<G>>)

  /** A `.collection-item`: whether it has a descendant `img`, and its `.w-json` node if any. */
  datatype Item<G> = Item(hasImage: bool, script: Option<Script<G>>)

  /** An element of a group, `{item, data}`: the item's identity and its own payload. */
  datatype Entry<G> = Entry(item: nat, data: Data<G>)

  /** getJsonData: the item's payload, or None when it has none or it does not parse. */
  function GetJsonData<G>(item: Item<G>): (r: Option<Data<G>>)
  {
    match item.script
    case None => None
    case Some(script) => script.parsed
  }

  /** The item's payload parsed and carries the group `g`. */
  predicate InGroup<G(==)>(item: Item<G>, g: G) {
    GetJsonData(item).Some? && GetJsonData(item).value.group == g
  }

  /**
   * getGroupItems as a value: the entries of the items whose payload parsed
   * and whose group is `g`, in document order. It recurses on the last item
   * so that every entry keeps its absolute position as identity.
   */
  function GroupOf<G(==)>(items: seq<Item<G>>, g: G): (r: seq<Entry<G>>)
    decreases |items|
  {
    if items == [] then []
    else
      var n := |items| - 1;
      var rest := GroupOf(items[..n], g);
      if InGroup(items[n], g) then rest + [Entry(n, GetJsonData(items[n]).value)] else rest
  }

  /** The entries appear in strictly increasing document order. */
  ghost predicate InDocumentOrder<G>(es: seq<Entry<G>>) {
    forall j, k :: 0 <= j < k < |es| ==> es[j].item < es[k].item
  }

  /** Every entry can be opened: its payload lists at least one image. */
  predicate Renderable<G>(es: seq<Entry<G>>) {
    forall k :: 0 <= k < |es| ==> es[k].data.items != []
  }

  /**
   * The page follows the markup convention: every payload that parses has a
   * non-empty `items` list, so `data.items[0]` always exists.
   */
  predicate WellFormed<G>(items: seq<Item<G>>) {
    forall i :: 0 <= i < |items| && GetJsonData(items[i]).Some? ==> GetJsonData(items[i]).value.items != []
  }

  /** Every entry of a group is a real item of the page, paired with its own payload, which has group `g`. */
  lemma {:induction false} GroupOfSound<G>(items: seq<Item<G>>, g: G)
    ensures forall e :: e in GroupOf(items, g) ==>
      e.item < |items| && GetJsonData(items[e.item]) == Some(e.data) && e.data.group == g
  {
    if items != [] {
      var n := |items| - 1;
      GroupOfSound(items[..n], g);
      forall e | e in GroupOf(items[..n], g)
        ensures e.item < |items| && GetJsonData(items[e.item]) == Some(e.data)
      {
        assert items[..n][e.item] == items[e.item];
      }
    }
  }

  /** Every item whose payload parsed with group `g` is in the group. */
  lemma {:induction false} GroupOfComplete<G>(items: seq<Item<G>>, g: G, i: nat)
    requires i < |items| && InGroup(items[i], g)
    ensures exists k :: 0 <= k < |GroupOf(items, g)| && GroupOf(items, g)[k].item == i
  {
    var n := |items| - 1;
    var rest := GroupOf(items[..n], g);
    if i == n {
      var r := GroupOf(items, g);
      assert r[|r| - 1].item == i;
    } else {
      assert items[..n][i] == items[i];
      GroupOfComplete(items[..n], g, i);
      var k :| 0 <= k < |rest| && rest[k].item == i;
      assert GroupOf(items, g)[k] == rest[k];
    }
  }

  /** The group keeps document order. */
  lemma {:induction false} GroupOfOrdered<G>(items: seq<Item<G>>, g: G)
    ensures InDocumentOrder(GroupOf(items, g))
  {
    if items != [] {
      var n := |items| - 1;
      GroupOfOrdered(items[..n], g);
      GroupOfSound(items[..n], g);
    }
  }

  /** Items without a payload, or whose payload does not parse, belong to no group. */
  lemma NoPayloadNeverGrouped<G>(items: seq<Item<G>>, g: G, i: nat)
    requires i < |items| && GetJsonData(items[i]).None?
    ensures forall e :: e in GroupOf(items, g) ==> e.item != i
  {
    GroupOfSound(items, g);
  }

  /** On a well-formed page every group can be rendered at every position. */
  lemma GroupOfRenderable<G>(items: seq<Item<G>>, g: G)
    requires WellFormed(items)
    ensures Renderable(GroupOf(items, g))
  {
    GroupOfSound(items, g);
  }

  /**
   * Array.prototype.findIndex on a group: the first position whose entry is
   * `item`, or -1 when there is none.
   */
  function FindIndex<G>(es: seq<Entry<G>>, item: nat): (k: int)
    ensures -1 <= k < |es|
    ensures k == -1 <==> forall j :: 0 <= j < |es| ==> es[j].item != item
    ensures k >= 0 ==> es[k].item == item && forall j :: 0 <= j < k ==> es[j].item != item
  {
    if es == [] then -1
    else if es[0].item == item then 0
    else
      var k := FindIndex(es[1..], item);
      if k == -1 then -1 else k + 1
  }

  /**
   * The clicked item is always found in its own group, at a position whose
   * entry carries its own payload; in particular the group is not empty.
   */
  lemma ClickedItemFound<G>(items: seq<Item<G>>, i: nat)
    requires i < |items| && GetJsonData(items[i]).Some?
    ensures var d := GetJsonData(items[i]).value;
            var k := FindIndex(GroupOf(items, d.group), i);
            0 <= k < |GroupOf(items, d.group)| && GroupOf(items, d.group)[k] == Entry(i, d)
  {
    var d := GetJsonData(items[i]).value;
    var es := GroupOf(items, d.group);
    GroupOfComplete(items, d.group, i);
    GroupOfSound(items, d.group);
    var k := FindIndex(es, i);
    assert es[k] in es;
  }
}
