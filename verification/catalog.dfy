/**
 * The education catalog views: the category grouping that feeds the
 * material picker of the manual push tab, and the category filter of the
 * material library tab.
 */
module Catalog {
  import opened Wrappers
  import opened Seqs
  import opened Records

  const Uncategorised: string := "其他"
  const AllCategories: string := "全部"

  /** The category a material is grouped under: its own, or "其他" when it has none. */
  function CategoryOf(e: CatalogEntry): (c: string)
  {
    e.material.category.GetOr(Uncategorised)
  }

  function InCategory(c: string): CatalogEntry -> bool
  {
    (e: CatalogEntry) => CategoryOf(e) == c
  }

  /** The bucket of category `c`: the catalog entries grouped under `c`, in catalog order. */
  function Bucket(catalog: seq<CatalogEntry>, c: string): (r: seq<CatalogEntry>)
  {
    Filter(catalog, InCategory(c))
  }

  /** The categories in order of first appearance, as the keys of the grouping dictionary. */
  function CategoryOrder(catalog: seq<CatalogEntry>): (cs: seq<string>)
  {
    if catalog == [] then []
    else
      var before := CategoryOrder(catalog[..|catalog| - 1]);
      var c := CategoryOf(catalog[|catalog| - 1]);
      if c in before then before else before + [c]
  }

  predicate Distinct(cs: seq<string>)
  {
    forall i, j :: 0 <= i < j < |cs| ==> cs[i] != cs[j]
  }

  /** The grouping dictionary: its keys in insertion order and the bucket of each key. */
  datatype Grouping = Grouping(order: seq<string>, buckets: map<string, seq<CatalogEntry>>)

  /** The category order lists each category once, and exactly the categories with a non-empty bucket. */
  lemma {:induction false} CategoryOrderSpec(catalog: seq<CatalogEntry>)
    ensures Distinct(CategoryOrder(catalog))
    ensures forall c :: c in CategoryOrder(catalog) <==> Bucket(catalog, c) != []
  {
    if catalog != [] {
      var init, last := catalog[..|catalog| - 1], catalog[|catalog| - 1];
      CategoryOrderSpec(init);
      assert catalog == init + [last];
      forall c ensures Bucket(catalog, c) == Bucket(init, c) + (if CategoryOf(last) == c then [last] else []) {
        FilterSnoc(init, last, InCategory(c));
      }
    }
  }

  /** `order` and `buckets` are the grouping dictionary built from `prefix`. */
  ghost predicate GroupedUpTo(order: seq<string>, buckets: map<string, seq<CatalogEntry>>,
                              prefix: seq<CatalogEntry>)
  {
    && order == CategoryOrder(prefix)
    && (forall c :: c in buckets <==> c in order)
    && (forall c :: c in buckets ==> buckets[c] == Bucket(prefix, c))
  }

  /** One step of the grouping loop keeps the dictionary in step with the entries seen so far. */
  lemma GroupStep(order: seq<string>, buckets: map<string, seq<CatalogEntry>>,
                  prefix: seq<CatalogEntry>, entry: CatalogEntry)
    requires GroupedUpTo(order, buckets, prefix)
    ensures var cat := CategoryOf(entry);
            var created := if cat in buckets then buckets else buckets[cat := []];
            var order' := if cat in buckets then order else order + [cat];
            GroupedUpTo(order', created[cat := created[cat] + [entry]], prefix + [entry])
  {
    assert (prefix + [entry])[..|prefix|] == prefix;
    forall c ensures Bucket(prefix + [entry], c) ==
                       Bucket(prefix, c) + (if CategoryOf(entry) == c then [entry] else []) {
      FilterSnoc(prefix, entry, InCategory(c));
    }
    CategoryOrderSpec(prefix);
  }

  /**
   * The grouping loop of the manual push tab: walks the catalog once and
   * appends each entry to the list of its category, creating the list on
   * first sight of the category.
   */
  method GroupByCategory(catalog: seq<CatalogEntry>) returns (g: Grouping)
    ensures g.order == CategoryOrder(catalog)
    ensures forall c :: c in g.buckets <==> c in g.order
    ensures forall c :: c in g.buckets ==> g.buckets[c] == Bucket(catalog, c)
    ensures forall c :: c in g.buckets ==> g.buckets[c] != []
  {
    var categories: map<string, seq<CatalogEntry>> := map[];
    var order: seq<string> := [];
    for i := 0 to |catalog|
      invariant GroupedUpTo(order, categories, catalog[..i])
    {
      var entry := catalog[i];
      GroupStep(order, categories, catalog[..i], entry);
      assert catalog[..i + 1] == catalog[..i] + [entry];
      var cat := CategoryOf(entry);
      if cat !in categories {
        categories := categories[cat := []];
        order := order + [cat];
      }
      categories := categories[cat := categories[cat] + [entry]];
    }
    assert catalog[..|catalog|] == catalog;
    CategoryOrderSpec(catalog);
    g := Grouping(order, categories);
  }

  /** Every entry lands in the bucket of its own category and in no other. */
  lemma EntryInExactlyOneBucket(catalog: seq<CatalogEntry>, e: CatalogEntry, c: string)
    requires e in catalog
    ensures CategoryOf(e) in CategoryOrder(catalog)
    ensures e in Bucket(catalog, c) <==> c == CategoryOf(e)
  {
    CategoryOrderSpec(catalog);
    assert e in Bucket(catalog, CategoryOf(e));
  }

  /** The summed size of the buckets of `cats`. */
  function TotalSize(cats: seq<string>, catalog: seq<CatalogEntry>): (n: nat)
  {
    if cats == [] then 0 else |Bucket(catalog, cats[0])| + TotalSize(cats[1..], catalog)
  }

  lemma {:induction false} TotalSizeSnoc(cats: seq<string>, c: string, catalog: seq<CatalogEntry>)
    ensures TotalSize(cats + [c], catalog) == TotalSize(cats, catalog) + |Bucket(catalog, c)|
  {
    if cats != [] {
      assert (cats + [c])[1..] == cats[1..] + [c];
      TotalSizeSnoc(cats[1..], c, catalog);
    } else {
      assert [] + [c] == [c];
      assert [c][1..] == [];
    }
  }

  /** Adding one entry to the catalog adds one to the total of a category list holding its category once. */
  lemma {:induction false} TotalSizeAddEntry(cats: seq<string>, init: seq<CatalogEntry>, last: CatalogEntry)
    requires Distinct(cats)
    ensures TotalSize(cats, init + [last]) ==
            TotalSize(cats, init) + (if CategoryOf(last) in cats then 1 else 0)
  {
    if cats != [] {
      FilterSnoc(init, last, InCategory(cats[0]));
      assert forall x :: x in cats[1..] ==> x in cats;
      assert CategoryOf(last) in cats <==> CategoryOf(last) == cats[0] || CategoryOf(last) in cats[1..];
      assert cats[0] !in cats[1..];
      TotalSizeAddEntry(cats[1..], init, last);
    }
  }

  /** The bucket sizes add up to the catalog size: no entry is lost or counted twice. */
  lemma {:induction false} BucketSizesSum(catalog: seq<CatalogEntry>)
    ensures TotalSize(CategoryOrder(catalog), catalog) == |catalog|
  {
    if catalog != [] {
      var init, last := catalog[..|catalog| - 1], catalog[|catalog| - 1];
      assert catalog == init + [last];
      var before := CategoryOrder(init);
      BucketSizesSum(init);
      CategoryOrderSpec(init);
      TotalSizeAddEntry(before, init, last);
      if CategoryOf(last) !in before {
        TotalSizeSnoc(before, CategoryOf(last), catalog);
        FilterSnoc(init, last, InCategory(CategoryOf(last)));
      }
    }
  }

  /** The category choices of the library tab: the set of categories, "其他" standing for none. */
  function CategorySet(catalog: seq<CatalogEntry>): (cs: set<string>)
    ensures forall c :: c in cs <==> c in CategoryOrder(catalog)
  {
    CategoryOrderSpec(catalog);
    forall c | c in CategoryOrder(catalog) ensures exists e :: e in catalog && CategoryOf(e) == c {
      assert Bucket(catalog, c)[0] in Bucket(catalog, c);
    }
    set e | e in catalog :: CategoryOf(e)
  }

  /** The library filter as written: it compares the raw category, without the "其他" default. */
  function HasRawCategory(c: string): CatalogEntry -> bool
  {
    (e: CatalogEntry) => e.material.category == Some(c)
  }

  function LibraryViewAsWritten(catalog: seq<CatalogEntry>, selected: string): (r: seq<CatalogEntry>)
  {
    if selected == AllCategories then catalog else Filter(catalog, HasRawCategory(selected))
  }

  /** A material without a category is offered under "其他", yet choosing "其他" does not show it. */
  lemma UncategorisedMaterialHidden()
    ensures var catalog := [CatalogEntry("X", Material(None, None, None, None))];
            Uncategorised in CategorySet(catalog) && LibraryViewAsWritten(catalog, Uncategorised) == []
  {
    var catalog := [CatalogEntry("X", Material(None, None, None, None))];
    assert CategoryOf(catalog[0]) == Uncategorised;
    assert Filter(catalog[1..], HasRawCategory(Uncategorised)) == [];
  }

  /** The library filter with the same default as the choices: it shows the chosen category's bucket. */
  function LibraryView(catalog: seq<CatalogEntry>, selected: string): (r: seq<CatalogEntry>)
    ensures selected == AllCategories ==> r == catalog
    ensures selected != AllCategories ==> forall e :: e in r <==> e in catalog && CategoryOf(e) == selected
    ensures selected != AllCategories && selected in CategorySet(catalog) ==> r != []
  {
    CategoryOrderSpec(catalog);
    if selected == AllCategories then catalog else Bucket(catalog, selected)
  }
}
