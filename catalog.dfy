/**
 * The catalog records, the category tabs and the two fetch stages of
 * `MainView`: the three per-category product lists merged in a fixed order,
 * the category filter of the product table, the manufacturer list derived
 * from the merged catalog, and the per-manufacturer availability fan-out.
 * A retrieval is a function parameter whose `None` stands for a rejected
 * promise (a non-200 status or an undecodable body).
 */
module Catalog {
  import opened Wrappers
  import opened Sequences

  /** A product as the catalog API returns it; `kind` is the record's `type` field. */
  datatype Product = Product(
    kind: string,
    id: string,
    name: string,
    price: real,
    manufacturer: string,
    datapayload: string)

  /** One availability record: a product id and its payload text. */
  datatype Availibility = Availibility(id: string, payload: string)

  /** The body of one manufacturer's availability response. */
  datatype HasResponse = HasResponse(code: string, response: seq<Availibility>)

  /** The tab labels, which are also the product types the tabs select. */
  const Tabs: seq<string> := ["accessories", "jackets", "shirts"]

  /** `tabs[selectedTab]`: the tab label, or `None` (JavaScript's `undefined`) off the end. */
  function TabAt(selectedTab: int): (r: Option<string>)
    ensures r.Some? <==> 0 <= selectedTab < |Tabs|
    ensures r.Some? ==> r.value in Tabs
    ensures selectedTab == 0 ==> r == Some("accessories")
    ensures selectedTab == 1 ==> r == Some("jackets")
    ensures selectedTab == 2 ==> r == Some("shirts")
  {
    if 0 <= selectedTab < |Tabs| then Some(Tabs[selectedTab]) else None
  }

  /** `product.type === tab`: an undefined tab matches no product. */
  predicate OfTab(p: Product, tab: Option<string>) {
    tab == Some(p.kind)
  }

  /** `_.filter(data, product => product.type === tab)`. */
  function FilterByTab(data: seq<Product>, tab: Option<string>): (r: seq<Product>)
    ensures |r| <= |data|
    ensures forall i :: 0 <= i < |r| ==> r[i] in data && OfTab(r[i], tab)
    ensures forall i :: 0 <= i < |data| && OfTab(data[i], tab) ==> data[i] in r
    decreases |data|
  {
    if data == [] then []
    else if OfTab(data[0], tab) then [data[0]] + FilterByTab(data[1..], tab)
    else FilterByTab(data[1..], tab)
  }

  /** The filter keeps the catalog order of the records it keeps. */
  lemma {:induction false} FilterPreservesOrder(data: seq<Product>, tab: Option<string>)
    ensures IsSubsequence(FilterByTab(data, tab), data)
    decreases |data|
  {
    if data != [] {
      FilterPreservesOrder(data[1..], tab);
      var rest := FilterByTab(data[1..], tab);
      if OfTab(data[0], tab) {
        assert ([data[0]] + rest)[1..] == rest;
      }
    }
  }

  /** Every matching record is kept as often as it occurs, and no other record is kept. */
  lemma {:induction false} FilterKeepsEveryMatch(data: seq<Product>, tab: Option<string>, p: Product)
    ensures multiset(FilterByTab(data, tab))[p] == if OfTab(p, tab) then multiset(data)[p] else 0
    decreases |data|
  {
    if data != [] {
      FilterKeepsEveryMatch(data[1..], tab, p);
      assert data == [data[0]] + data[1..];
    }
  }

  /** The spread concatenation in `fetchAllData`: accessories, then jackets, then shirts. */
  function Merge(accessories: seq<Product>, jackets: seq<Product>, shirts: seq<Product>): (r: seq<Product>)
    ensures |r| == |accessories| + |jackets| + |shirts|
    ensures r[..|accessories|] == accessories
    ensures r[|accessories|..|accessories| + |jackets|] == jackets
    ensures r[|accessories| + |jackets|..] == shirts
    ensures multiset(r) == multiset(accessories) + multiset(jackets) + multiset(shirts)
  {
    var r := accessories + jackets + shirts;
    assert r[..|accessories|] == accessories;
    assert r[|accessories|..|accessories| + |jackets|] == jackets;
    r
  }

  /**
   * `fetchAllData`: the three category retrievals joined all-or-nothing; the
   * merged order is the declaration order, whatever order they complete in.
   */
  function FetchAllData(fetchProduct: string -> Option<seq<Product>>): (r: Option<seq<Product>>)
    ensures r.Some? <==>
      fetchProduct("accessories").Some? && fetchProduct("jackets").Some? && fetchProduct("shirts").Some?
    ensures r.Some? ==>
      r.value == Merge(fetchProduct("accessories").value, fetchProduct("jackets").value,
                       fetchProduct("shirts").value)
  {
    match (fetchProduct("accessories"), fetchProduct("jackets"), fetchProduct("shirts"))
    case (Some(a), Some(j), Some(s)) => Some(Merge(a, j, s))
    case _ => None
  }

  /** `data.map(product => product.manufacturer)`. */
  function ManufacturerOf(data: seq<Product>): seq<string> {
    seq(|data|, i requires 0 <= i < |data| => data[i].manufacturer)
  }

  /** `_.uniq(data.map(product => product.manufacturer))`. */
  function Manufacturers(data: seq<Product>): (r: seq<string>)
    ensures NoDuplicates(r)
    ensures forall i :: 0 <= i < |data| ==> data[i].manufacturer in r
  {
    var ms := ManufacturerOf(data);
    assert forall i :: 0 <= i < |data| ==> ms[i] == data[i].manufacturer;
    Uniq(ms)
  }

  /**
   * The manufacturer list is duplicate-free, names every manufacturer of the
   * catalog and nothing else, in the order of first appearance.
   */
  lemma ManufacturersAreDistinctAndComplete(data: seq<Product>)
    ensures NoDuplicates(Manufacturers(data))
    ensures forall i :: 0 <= i < |data| ==> data[i].manufacturer in Manufacturers(data)
    ensures forall m :: m in Manufacturers(data) ==> m in ManufacturerOf(data)
    ensures forall i, j :: 0 <= i < j < |Manufacturers(data)| ==>
              FirstIndex(ManufacturerOf(data), Manufacturers(data)[i]) <
              FirstIndex(ManufacturerOf(data), Manufacturers(data)[j])
  {
    var ms := ManufacturerOf(data);
    forall i | 0 <= i < |data| ensures data[i].manufacturer in Manufacturers(data) {
      assert ms[i] == data[i].manufacturer;
    }
    UniqFirstAppearanceOrder(ms);
  }

  /**
   * `Promise.all(manufacturers.map(fetchAvailibility))`: one response per
   * manufacturer, in manufacturer order, or `None` when any retrieval fails.
   */
  function FetchAvailabilities(manufacturers: seq<string>, fetch: string -> Option<HasResponse>)
    : (r: Option<seq<HasResponse>>)
    ensures r.Some? <==> forall i :: 0 <= i < |manufacturers| ==> fetch(manufacturers[i]).Some?
    ensures r.Some? ==> |r.value| == |manufacturers|
    ensures r.Some? ==> forall i :: 0 <= i < |manufacturers| ==> fetch(manufacturers[i]) == Some(r.value[i])
    decreases |manufacturers|
  {
    if manufacturers == [] then Some([])
    else
      match (fetch(manufacturers[0]), FetchAvailabilities(manufacturers[1..], fetch))
      case (Some(first), Some(rest)) => Some([first] + rest)
      case (None, _) => None
      case (_, None) =>
        assert exists i :: 0 <= i < |manufacturers| - 1 && fetch(manufacturers[1..][i]).None?;
        None
  }
}
