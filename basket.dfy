/** The basket builder of client/js/basket.js: a list of `{name, qty}`
    entries that presets replace, that custom items are appended to without
    duplicates, and from which the remove buttons splice entries out. */
module Basket {
  import opened JsString

  datatype BasketItem = BasketItem(name: string, qty: int)

  /** `PRESETS`. */
  const Presets: map<string, seq<string>> := map[
    "college" := ["ramen", "eggs", "rice", "bananas", "coffee", "frozen pizza"],
    "family" := ["milk", "eggs", "bread", "chicken breast", "bananas", "cheese", "pasta", "cereal"],
    "health" := ["avocado", "spinach", "salmon", "quinoa", "blueberries", "yogurt"],
    "basics" := ["milk", "eggs", "bread", "butter", "rice"]
  ]

  const DefaultPreset: string := "basics"

  function Names(items: seq<BasketItem>): (ns: seq<string>)
    ensures |ns| == |items|
    ensures forall i :: 0 <= i < |items| ==> ns[i] == items[i].name
  {
    if items == [] then [] else [items[0].name] + Names(items[1..])
  }

  /** No two entries share a name and every quantity is 1. */
  predicate WellFormed(items: seq<BasketItem>) {
    && (forall i, j :: 0 <= i < j < |items| ==> items[i].name != items[j].name)
    && (forall i :: 0 <= i < |items| ==> items[i].qty == 1)
  }

  /** `preset.map((name) => ({ name, qty: 1 }))`. */
  function FromNames(names: seq<string>): (items: seq<BasketItem>)
    ensures Names(items) == names
    ensures forall i :: 0 <= i < |items| ==> items[i].qty == 1
  {
    seq(|names|, i requires 0 <= i < |names| => BasketItem(names[i], 1))
  }

  /** The basket after `addItem(name)`. */
  function Added(items: seq<BasketItem>, name: string): seq<BasketItem> {
    var cleaned := Clean(name);
    if cleaned == "" || cleaned in Names(items) then items else items + [BasketItem(cleaned, 1)]
  }

  /** `addItem` appends one entry with the cleaned name exactly when that
      name is non-empty and new, and keeps the basket well formed. */
  lemma AddedSpec(items: seq<BasketItem>, name: string)
    requires WellFormed(items)
    ensures WellFormed(Added(items, name))
    ensures Clean(name) == "" || Clean(name) in Names(items) ==> Added(items, name) == items
    ensures Clean(name) != "" && Clean(name) !in Names(items) ==>
      Added(items, name) == items + [BasketItem(Clean(name), 1)]
  {
    var cleaned := Clean(name);
    if cleaned != "" && cleaned !in Names(items) {
      var r := items + [BasketItem(cleaned, 1)];
      forall i, j | 0 <= i < j < |r| ensures r[i].name != r[j].name {
        if j == |items| {
          assert Names(items)[i] == items[i].name;
        }
      }
    }
  }

  /** Adding the same name twice is the same as adding it once, whatever
      its case or surrounding spaces. */
  lemma AddedIdempotent(items: seq<BasketItem>, a: string, b: string)
    requires Clean(a) == Clean(b)
    ensures Added(Added(items, a), b) == Added(items, a)
  {
    var cleaned := Clean(a);
    if cleaned != "" && cleaned !in Names(items) {
      var r := items + [BasketItem(cleaned, 1)];
      assert Names(r)[|items|] == cleaned;
    }
  }

  /** `items.splice(start, 1)`: a negative start counts from the end, and a
      start at or past the end removes nothing. */
  function Removed(items: seq<BasketItem>, start: int): seq<BasketItem> {
    var len := |items|;
    var k := if start < 0 then (if len + start < 0 then 0 else len + start) else (if start > len then len else start);
    if k < len then items[..k] + items[k + 1..] else items
  }

  /** Removing a listed index deletes exactly that entry and keeps the rest
      in order and well formed. */
  lemma RemovedSpec(items: seq<BasketItem>, index: int)
    requires WellFormed(items) && 0 <= index < |items|
    ensures Removed(items, index) == items[..index] + items[index + 1..]
    ensures |Removed(items, index)| == |items| - 1
    ensures forall j :: 0 <= j < |items| - 1 ==>
      Removed(items, index)[j] == (if j < index then items[j] else items[j + 1])
    ensures WellFormed(Removed(items, index))
  {
    var r := Removed(items, index);
    forall i, j | 0 <= i < j < |r| ensures r[i].name != r[j].name {
      var i' := if i < index then i else i + 1;
      var j' := if j < index then j else j + 1;
      assert r[i] == items[i'] && r[j] == items[j'];
    }
  }

  /** Every preset lists distinct names. */
  lemma PresetsDistinct()
    ensures forall key :: key in Presets ==> WellFormed(FromNames(Presets[key]))
  {
    forall key | key in Presets ensures WellFormed(FromNames(Presets[key])) {
      var names := Presets[key];
      if key == "college" {
        assert names == ["ramen", "eggs", "rice", "bananas", "coffee", "frozen pizza"];
      } else if key == "family" {
        assert names == ["milk", "eggs", "bread", "chicken breast", "bananas", "cheese", "pasta", "cereal"];
      } else if key == "health" {
        assert names == ["avocado", "spinach", "salmon", "quinoa", "blueberries", "yogurt"];
      } else {
        assert names == ["milk", "eggs", "bread", "butter", "rice"];
      }
      DistinctWellFormed(names);
    }
  }

  /** Names that differ pairwise give a well-formed basket. */
  lemma DistinctWellFormed(names: seq<string>)
    requires forall i, j :: 0 <= i < j < |names| ==> names[i] != names[j]
    ensures WellFormed(FromNames(names))
  {
    var items := FromNames(names);
    forall i, j | 0 <= i < j < |items| ensures items[i].name != items[j].name {
      assert items[i].name == names[i] && items[j].name == names[j];
    }
  }

  class BasketState {
    var items: seq<BasketItem>

    predicate Valid()
      reads this
    {
      WellFormed(items)
    }

    /** The page's start-up: an empty list, then the "basics" preset. */
    constructor ()
      ensures items == FromNames(Presets[DefaultPreset])
      ensures Valid()
    {
      items := [];
      new;
      SetPreset(DefaultPreset);
    }

    /** `addItem(name)`. */
    method AddItem(name: string)
      requires Valid()
      modifies this
      ensures items == Added(old(items), name)
      ensures Valid()
    {
      var cleaned := Clean(name);
      AddedSpec(items, name);
      if cleaned == "" {
        return;
      }
      if exists i :: 0 <= i < |items| && items[i].name == cleaned {
        return;
      }
      items := items + [BasketItem(cleaned, 1)];
    }

    /** `setPreset(presetKey)`: an unknown key changes nothing. */
    method SetPreset(presetKey: string)
      requires Valid()
      modifies this
      ensures presetKey !in Presets ==> items == old(items)
      ensures presetKey in Presets ==> items == FromNames(Presets[presetKey])
      ensures Valid()
    {
      if presetKey !in Presets {
        return;
      }
      PresetsDistinct();
      items := FromNames(Presets[presetKey]);
    }

    /** The remove button of the pill at `index`. */
    method RemoveAt(index: int)
      requires Valid()
      modifies this
      ensures items == Removed(old(items), index)
      ensures Valid()
    {
      var len := |items|;
      var k := if index < 0 then (if len + index < 0 then 0 else len + index) else (if index > len then len else index);
      if k < len {
        var r := items[..k] + items[k + 1..];
        RemovedSpec(items, k);
        assert Removed(items, k) == Removed(items, index);
        items := r;
      }
    }

    /** `getItems()`: a new array holding the entries, so changing it does
        not change the basket. */
    method GetItems() returns (copy: array<BasketItem>)
      ensures fresh(copy)
      ensures copy[..] == items
    {
      copy := new BasketItem[|items|](i requires 0 <= i < |items| reads this => items[i]);
    }
  }
}
