/**
 * The `MainView` component's state: the selected tab, the current page, the
 * page size, the merged catalog (`data`), the products on the current page
 * and the availability list, with the operations that change them.
 */
module View {
  import opened Wrappers
  import opened Sequences
  import opened Text
  import opened Catalog
  import opened Pagination
  import opened AvailabilityIndex

  /** What `updateProductList` shows: the selected tab's products, sliced to the current page. */
  function Shown(data: seq<Product>, selectedTab: int, currentPage: int, itemsPerPage: int): seq<Product> {
    GetPaginatedItems(FilterByTab(data, TabAt(selectedTab)), currentPage, itemsPerPage).data
  }

  /**
   * From page 1 on, the shown products are the current-page slice of the
   * selected tab's products.
   */
  lemma ShownIsPageOfTab(data: seq<Product>, selectedTab: int, currentPage: int, itemsPerPage: int)
    requires currentPage >= 1 && itemsPerPage >= 1
    ensures var filtered := FilterByTab(data, TabAt(selectedTab));
            var offset := (currentPage - 1) * itemsPerPage;
            && 0 <= offset
            && Shown(data, selectedTab, currentPage, itemsPerPage)
               == filtered[Min(offset, |filtered|)..Min(offset + itemsPerPage, |filtered|)]
  {
    PageFromOneIsSlice(FilterByTab(data, TabAt(selectedTab)), currentPage, itemsPerPage);
  }

  /** The shown products never exceed one page. */
  lemma ShownFitsOnePage(data: seq<Product>, selectedTab: int, currentPage: int, itemsPerPage: int)
    requires currentPage >= 1 && itemsPerPage >= 1
    ensures |Shown(data, selectedTab, currentPage, itemsPerPage)| <= itemsPerPage
  {
    ShownIsPageOfTab(data, selectedTab, currentPage, itemsPerPage);
  }

  /** A page past the end of the selected tab shows nothing, and is not an error. */
  lemma ShownPastEndIsEmpty(data: seq<Product>, selectedTab: int, currentPage: int, itemsPerPage: int)
    requires currentPage >= 1 && itemsPerPage >= 1
    requires (currentPage - 1) * itemsPerPage >= |FilterByTab(data, TabAt(selectedTab))|
    ensures Shown(data, selectedTab, currentPage, itemsPerPage) == []
  {
    ShownIsPageOfTab(data, selectedTab, currentPage, itemsPerPage);
  }

  /**
   * The shown products are records of the catalog whose type is the selected
   * tab, in catalog order.
   */
  lemma ShownKeepsTabAndOrder(data: seq<Product>, selectedTab: int, currentPage: int, itemsPerPage: int)
    requires currentPage >= 1 && itemsPerPage >= 1
    ensures forall p :: p in Shown(data, selectedTab, currentPage, itemsPerPage) ==>
              p in data && TabAt(selectedTab) == Some(p.kind)
    ensures IsSubsequence(Shown(data, selectedTab, currentPage, itemsPerPage), data)
  {
    var tab := TabAt(selectedTab);
    var filtered := FilterByTab(data, tab);
    var shown := Shown(data, selectedTab, currentPage, itemsPerPage);
    ShownIsPageOfTab(data, selectedTab, currentPage, itemsPerPage);
    var offset := (currentPage - 1) * itemsPerPage;
    var lo, hi := Min(offset, |filtered|), Min(offset + itemsPerPage, |filtered|);
    assert shown == filtered[lo..hi];
    SliceOfFilter(data, tab, lo, hi);
    assert forall p :: p in shown ==> p in data && OfTab(p, tab);
  }

  /** Any contiguous slice of the filtered catalog holds only matching records, in catalog order. */
  lemma SliceOfFilter(data: seq<Product>, tab: Option<string>, lo: nat, hi: nat)
    requires lo <= hi <= |FilterByTab(data, tab)|
    ensures forall p :: p in FilterByTab(data, tab)[lo..hi] ==> p in data && OfTab(p, tab)
    ensures IsSubsequence(FilterByTab(data, tab)[lo..hi], data)
  {
    var filtered := FilterByTab(data, tab);
    var slice := filtered[lo..hi];
    forall p | p in slice
      ensures p in data && OfTab(p, tab)
    {
      var i :| 0 <= i < |slice| && slice[i] == p;
      assert filtered[lo + i] == p;
    }
    SliceIsSubsequence(filtered, lo, hi);
    FilterPreservesOrder(data, tab);
    SubsequenceTransitive(slice, filtered, data);
  }

  class MainView {
    var selectedTab: int
    var currentPage: int
    var itemsPerPage: int
    var data: seq<Product>
    var products: seq<Product>
    var availibility: seq<Availibility>

    /** The page is never below 1, the page size stays 10 and the table shows the current page. */
    ghost predicate Valid()
      reads this
    {
      && currentPage >= 1
      && itemsPerPage == 10
      && products == Shown(data, selectedTab, currentPage, itemsPerPage)
    }

    /** The initial field values: first tab, page 1, ten items a page, nothing loaded. */
    constructor ()
      ensures Valid()
      ensures selectedTab == 0 && currentPage == 1 && itemsPerPage == 10
      ensures data == [] && products == [] && availibility == []
    {
      selectedTab := 0;
      currentPage := 1;
      itemsPerPage := 10;
      data := [];
      products := [];
      availibility := [];
    }

    /** `updateProductList`: recompute the products on the current page. */
    method UpdateProductList()
      modifies this`products
      ensures products == Shown(data, selectedTab, currentPage, itemsPerPage)
    {
      products := GetPaginatedItems(FilterByTab(data, TabAt(selectedTab)), currentPage, itemsPerPage).data;
    }

    /** `selectionChanged`: select the tab the event names and go back to page 1. */
    method SelectionChanged(value: int)
      requires Valid()
      modifies this
      ensures Valid()
      ensures selectedTab == value && currentPage == 1
      ensures products == Shown(data, value, 1, itemsPerPage)
      ensures data == old(data) && availibility == old(availibility) && itemsPerPage == old(itemsPerPage)
    {
      selectedTab := value;
      currentPage := 1;
      UpdateProductList();
    }

    /** The next-page button is never disabled. */
    function DisableNext(): (r: bool)
      ensures !r
    {
      false
    }

    /** From page 1 on, the previous-page button is disabled exactly when no earlier page exists. */
    function DisablePrevious(): (r: bool)
      reads this
      ensures currentPage >= 1 ==> (r <==> currentPage - 1 < 1)
    {
      currentPage == 1
    }

    /** `nextPage`: never disabled, so the page always advances by one, past the last page too. */
    method NextPage()
      requires Valid()
      modifies this`currentPage, this`products
      ensures Valid()
      ensures currentPage == old(currentPage) + 1
      ensures products == Shown(data, selectedTab, currentPage, itemsPerPage)
    {
      if !DisableNext() {
        currentPage := currentPage + 1;
        UpdateProductList();
      }
    }

    /** `previousPage`: nothing happens on page 1; otherwise the page goes back by one. */
    method PreviousPage()
      requires Valid()
      modifies this`currentPage, this`products
      ensures Valid()
      ensures old(currentPage) == 1 ==> currentPage == 1 && products == old(products)
      ensures old(currentPage) != 1 ==> currentPage == old(currentPage) - 1
      ensures products == Shown(data, selectedTab, currentPage, itemsPerPage)
    {
      if !DisablePrevious() {
        currentPage := currentPage - 1;
        UpdateProductList();
      }
    }

    /** `getAvailibility`: the stock text joined to a product, "" when there is none. */
    function GetAvailibility(product: Product): (s: string)
      reads this
      ensures (forall k :: 0 <= k < |availibility| ==> availibility[k].id != ToUpperCase(product.id)) ==> s == ""
      ensures s == "" || exists k :: 0 <= k < |availibility| &&
                           availibility[k].id == ToUpperCase(product.id) && availibility[k].payload == s
      ensures (exists k :: 0 <= k < |availibility| && availibility[k].id == ToUpperCase(product.id)) ==>
                exists k :: 0 <= k < |availibility| && availibility[k].id == ToUpperCase(product.id) &&
                  availibility[k].payload == s &&
                  (forall m :: 0 <= m < k ==> availibility[m].id != ToUpperCase(product.id))
    {
      Join(availibility, product.id)
    }

    /**
     * The `.then` callback of `loadData`: for every response, in order, push
     * the entries of its records.
     */
    method AddAvailability(responses: seq<HasResponse>, extract: string -> Option<string>)
      modifies this`availibility
      ensures availibility == old(availibility) + Entries(extract, responses)
    {
      var i := 0;
      while i < |responses|
        invariant 0 <= i <= |responses|
        invariant availibility == old(availibility) + Entries(extract, responses[..i])
      {
        ghost var before := availibility;
        PushRecords(responses[i].response, extract);
        assert availibility == before + RecordEntries(extract, responses[i].response);
        EntriesStep(extract, responses, i);
        i := i + 1;
      }
      assert responses[..i] == responses;
    }

    /**
     * The inner loop of that callback: for every record of one response, push
     * its id with the text of its `INSTOCKVALUE` element, or with "" when the
     * payload has no such element.
     */
    method PushRecords(recs: seq<Availibility>, extract: string -> Option<string>)
      modifies this`availibility
      ensures availibility == old(availibility) + RecordEntries(extract, recs)
    {
      var j := 0;
      while j < |recs|
        invariant 0 <= j <= |recs|
        invariant availibility == old(availibility) + RecordEntries(extract, recs[..j])
      {
        var node := extract(recs[j].payload);
        if node.Some? {
          availibility := availibility + [Availibility(recs[j].id, node.value)];
        } else {
          availibility := availibility + [Availibility(recs[j].id, "")];
        }
        RecordEntriesStep(extract, recs, j);
        j := j + 1;
      }
      assert recs[..j] == recs;
    }

    /**
     * `loadData`: fetch and merge the catalog, show the current page of it,
     * then fetch the availability of each distinct manufacturer and append
     * the entries. A failed catalog fetch changes nothing; a failed
     * availability fetch leaves the availability list as it was.
     */
    method LoadData(fetchProduct: string -> Option<seq<Product>>,
                    fetchAvailibility: string -> Option<HasResponse>,
                    extract: string -> Option<string>)
      requires Valid()
      modifies this`data, this`products, this`availibility
      ensures Valid()
      ensures FetchAllData(fetchProduct).None? ==>
                data == old(data) && products == old(products) && availibility == old(availibility)
      ensures FetchAllData(fetchProduct).Some? ==> data == FetchAllData(fetchProduct).value
      ensures FetchAllData(fetchProduct).Some? ==>
                availibility == old(availibility) + LoadedEntries(data, fetchAvailibility, extract)
    {
      var fetched := FetchAllData(fetchProduct);
      if fetched.Some? {
        data := fetched.value;
        UpdateProductList();
        var manufacturers := Manufacturers(data);
        var responses := FetchAvailabilities(manufacturers, fetchAvailibility);
        if responses.Some? {
          AddAvailability(responses.value, extract);
        }
      }
    }
  }

  /**
   * What the availability stage of `loadData` appends for a catalog: the
   * entries of every distinct manufacturer's response, or nothing when one of
   * those retrievals fails.
   */
  function LoadedEntries(data: seq<Product>, fetchAvailibility: string -> Option<HasResponse>,
                         extract: string -> Option<string>): seq<Availibility>
  {
    match FetchAvailabilities(Manufacturers(data), fetchAvailibility)
    case Some(responses) => Entries(extract, responses)
    case None => []
  }

  /**
   * A small catalog end to end: two accessories by one manufacturer and a
   * jacket by another; the first manufacturer's one record carries the
   * upper-cased id of the first accessory and an in-stock element. The
   * accessories tab then lists both accessories, not the jacket; the first
   * joins with the element's text and the second with "".
   */
  lemma AccessoriesScenario(extract: string -> Option<string>,
                            fetchAvailibility: string -> Option<HasResponse>,
                            a1: Product, a2: Product, jacket: Product)
    requires a1.kind == "accessories" && a2.kind == "accessories" && jacket.kind == "jackets"
    requires a1.id == "a1" && a2.id == "a2"
    requires a1.manufacturer == "acme" && a2.manufacturer == "acme" && jacket.manufacturer == "hennex"
    requires fetchAvailibility("acme") == Some(HasResponse("200", [Availibility("A1", "<INSTOCKVALUE>INSTOCK</INSTOCKVALUE>")]))
    requires fetchAvailibility("hennex") == Some(HasResponse("200", []))
    requires extract("<INSTOCKVALUE>INSTOCK</INSTOCKVALUE>") == Some("INSTOCK")
    ensures var data := Merge([a1, a2], [jacket], []);
            var av := LoadedEntries(data, fetchAvailibility, extract);
            && Manufacturers(data) == ["acme", "hennex"]
            && Shown(data, 0, 1, 10) == [a1, a2]
            && Join(av, a1.id) == "INSTOCK"
            && Join(av, a2.id) == ""
  {
    var data := Merge([a1, a2], [jacket], []);
    assert data == [a1, a2, jacket];
    ScenarioManufacturers(data);
    ScenarioFilter(data);
    var rs := [HasResponse("200", [Availibility("A1", "<INSTOCKVALUE>INSTOCK</INSTOCKVALUE>")]), HasResponse("200", [])];
    ScenarioFetch(fetchAvailibility, rs);
    ScenarioEntries(extract, rs);
    ScenarioJoin(LoadedEntries(data, fetchAvailibility, extract), a1.id, a2.id);
  }

  lemma ScenarioFetch(fetchAvailibility: string -> Option<HasResponse>, rs: seq<HasResponse>)
    requires |rs| == 2
    requires fetchAvailibility("acme") == Some(rs[0]) && fetchAvailibility("hennex") == Some(rs[1])
    ensures FetchAvailabilities(["acme", "hennex"], fetchAvailibility) == Some(rs)
  {
    var ms: seq<string> := ["acme", "hennex"];
    assert fetchAvailibility(ms[0]).Some? && fetchAvailibility(ms[1]).Some?;
    var r := FetchAvailabilities(ms, fetchAvailibility);
    assert r.Some?;
    assert Some(r.value[0]) == fetchAvailibility(ms[0]) && Some(r.value[1]) == fetchAvailibility(ms[1]);
    assert r.value == rs;
  }

  lemma ScenarioJoin(av: seq<Availibility>, id1: string, id2: string)
    requires av == [Availibility("A1", "INSTOCK")]
    requires id1 == "a1" && id2 == "a2"
    ensures Join(av, id1) == "INSTOCK" && Join(av, id2) == ""
  {
    assert ToUpperCase(id1) == "A1";
    assert ToUpperCase(id2) == "A2";
  }

  lemma ScenarioManufacturers(data: seq<Product>)
    requires |data| == 3
    requires data[0].manufacturer == "acme" && data[1].manufacturer == "acme" && data[2].manufacturer == "hennex"
    ensures Manufacturers(data) == ["acme", "hennex"]
  {
    var ms := ManufacturerOf(data);
    assert ms == ["acme", "acme", "hennex"];
    assert ms[..2] == ["acme", "acme"] && ms[..2][..1] == ["acme"] && ms[..2][..1][..0] == [];
    assert Uniq(ms[..2][..1]) == ["acme"];
    assert Uniq(ms[..2]) == ["acme"];
  }

  lemma ScenarioFilter(data: seq<Product>)
    requires |data| == 3
    requires data[0].kind == "accessories" && data[1].kind == "accessories" && data[2].kind == "jackets"
    ensures Shown(data, 0, 1, 10) == data[..2]
  {
    var tab := TabAt(0);
    assert tab == Some("accessories");
    assert data[1..][1..][1..] == [];
    assert FilterByTab(data[1..][1..], tab) == [];
    assert FilterByTab(data, tab) == data[..2];
  }

  lemma ScenarioEntries(extract: string -> Option<string>, rs: seq<HasResponse>)
    requires rs == [HasResponse("200", [Availibility("A1", "<INSTOCKVALUE>INSTOCK</INSTOCKVALUE>")]), HasResponse("200", [])]
    requires extract("<INSTOCKVALUE>INSTOCK</INSTOCKVALUE>") == Some("INSTOCK")
    ensures Entries(extract, rs) == [Availibility("A1", "INSTOCK")]
  {
    assert rs[..1] == [rs[0]] && rs[..1][..0] == [];
    var recs := rs[0].response;
    assert recs[..0] == [];
    assert RecordEntries(extract, recs) == [Availibility("A1", "INSTOCK")];
    assert Entries(extract, rs[..1]) == [Availibility("A1", "INSTOCK")];
  }
}
