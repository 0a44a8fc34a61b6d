/**
 * `URL.queryParameters`: the URL's query items folded, left to right, into a
 * dictionary. The list of items that `URLComponents` parses out of the URL is
 * the input; `None` stands for a URL that has no query items (or that
 * `URLComponents` could not parse).
 */
module QueryParams {
  import opened Wrappers

  /** `URLQueryItem`: a name with an optional value ("a" in "?a" has none). */
  datatype QueryItem = QueryItem(name: string, value: Option<string>)

  /**
   * Index of the last item called `name`, if any. The result is characterised
   * by its contract: that item has the name, no later item does, and absence
   * means no item has it.
   */
  function LastIndex(items: seq<QueryItem>, name: string): (r: Option<nat>)
    ensures r.Some? ==> r.value < |items| && items[r.value].name == name
    ensures r.Some? ==> forall j :: r.value < j < |items| ==> items[j].name != name
    ensures r.None? ==> forall j :: 0 <= j < |items| ==> items[j].name != name
  {
    if |items| == 0 then None
    else if items[|items| - 1].name == name then Some(|items| - 1)
    else LastIndex(items[..|items| - 1], name)
  }

  /** The value carried by the last item called `name`: `None` if there is no such item. */
  function LastValue(items: seq<QueryItem>, name: string): Option<Option<string>> {
    match LastIndex(items, name)
    case None => None
    case Some(i) => Some(items[i].value)
  }

  /**
   * `parameters[item.name] = item.value` on a Swift dictionary: a present
   * value stores it, an absent value removes the key.
   */
  function Assign(parameters: map<string, string>, item: QueryItem): (r: map<string, string>)
    ensures item.value.Some? ==> item.name in r && r[item.name] == item.value.value
    ensures item.value.None? ==> item.name !in r
    ensures forall k :: k != item.name ==> (k in r <==> k in parameters)
    ensures forall k :: k != item.name && k in r ==> r[k] == parameters[k]
  {
    match item.value
    case Some(v) => parameters[item.name := v]
    case None => parameters - {item.name}
  }

  /**
   * `parameters` holds what the items say: a name is a key exactly when its
   * last item carries a value, and it maps to that value.
   */
  ghost predicate RecordsLastValues(parameters: map<string, string>, items: seq<QueryItem>) {
    && (forall k :: k in parameters <==> LastValue(items, k).Some? && LastValue(items, k).value.Some?)
    && (forall k :: k in parameters ==> parameters[k] == LastValue(items, k).value.value)
  }

  /** One more loop iteration keeps the dictionary in step with the items seen so far. */
  lemma AssignStep(parameters: map<string, string>, items: seq<QueryItem>)
    requires |items| > 0
    requires RecordsLastValues(parameters, items[..|items| - 1])
    ensures RecordsLastValues(Assign(parameters, items[|items| - 1]), items)
  {
    var last := items[|items| - 1];
    var next := Assign(parameters, last);
    forall k
      ensures k in next <==> LastValue(items, k).Some? && LastValue(items, k).value.Some?
      ensures k in next ==> next[k] == LastValue(items, k).value.value
    {
      if k == last.name {
        assert LastValue(items, k) == Some(last.value);
      } else {
        assert LastValue(items, k) == LastValue(items[..|items| - 1], k);
      }
    }
  }

  /** The loop over all items, starting from an empty dictionary. */
  function Collect(items: seq<QueryItem>): (parameters: map<string, string>)
    ensures RecordsLastValues(parameters, items)
  {
    if |items| == 0 then map[]
    else
      var parameters := Collect(items[..|items| - 1]);
      AssignStep(parameters, items);
      Assign(parameters, items[|items| - 1])
  }

  /**
   * `queryParameters`: absent exactly when there are no query items;
   * otherwise every key is the name of some item.
   */
  function QueryParameters(queryItems: Option<seq<QueryItem>>): (r: Option<map<string, string>>)
    ensures r.None? <==> queryItems.None?
    ensures r.Some? ==> forall k :: k in r.value ==>
      exists i :: 0 <= i < |queryItems.value| && queryItems.value[i].name == k
  {
    match queryItems
    case None => None
    case Some(items) => Some(Collect(items))
  }

  /** An empty query item list (a URL ending in "?") gives an empty dictionary, not an absent one. */
  lemma EmptyItemsGiveEmptyMap()
    ensures QueryParameters(Some([])) == Some(map[])
  {
  }

  /**
   * The last item with a given name decides that name, whatever came before it:
   * a value is stored, a missing value removes the key.
   */
  lemma LastOccurrenceWins(items: seq<QueryItem>, i: nat)
    requires i < |items|
    requires forall j :: i < j < |items| ==> items[j].name != items[i].name
    ensures items[i].value.Some? ==>
      items[i].name in Collect(items) && Collect(items)[items[i].name] == items[i].value.value
    ensures items[i].value.None? ==> items[i].name !in Collect(items)
  {
    assert LastIndex(items, items[i].name) == Some(i);
  }

  /** Two items with the same name: the second one's value is the one kept. */
  lemma LaterValueOverrides(name: string, first: Option<string>, second: string)
    ensures Collect([QueryItem(name, first), QueryItem(name, Some(second))]) == map[name := second]
  {
    var items := [QueryItem(name, first), QueryItem(name, Some(second))];
    assert items[..1] == [QueryItem(name, first)];
    assert [QueryItem(name, first)][..0] == [];
  }

  /** A value-less item after a valued one removes the key again. */
  lemma LaterNilRemoves(name: string, first: string)
    ensures Collect([QueryItem(name, Some(first)), QueryItem(name, None)]) == map[]
  {
    var items := [QueryItem(name, Some(first)), QueryItem(name, None)];
    assert items[..1] == [QueryItem(name, Some(first))];
    assert [QueryItem(name, Some(first))][..0] == [];
  }

  /** Appending an item changes nothing but the entry of its own name. */
  lemma AppendTouchesOnlyItsName(items: seq<QueryItem>, item: QueryItem, k: string)
    requires k != item.name
    ensures k in Collect(items + [item]) <==> k in Collect(items)
    ensures k in Collect(items) ==> Collect(items + [item])[k] == Collect(items)[k]
  {
    assert (items + [item])[..|items|] == items;
  }
}
