/** The product catalog of the transition demo page: normalising the fetched
    products, replicating them into a large dataset, and the live search
    filter that `handleSearchChange` applies to it. */
module Catalog {
  import opened Strings

  /** A product as the page holds it. Prices are only copied, never computed. */
  datatype Product = Product(
    id: string, title: string, price: real, category: string, description: string, image: string)

  /** A product as the remote API sends it, with a numeric id. */
  datatype RemoteProduct = RemoteProduct(
    id: int, title: string, price: real, category: string, description: string, image: string)

  /** The default `multiplier` of `createExpandedDataset`. */
  const DefaultMultiplier: nat := 50

  /** The multiplier the page passes to `createExpandedDataset`. */
  const PageMultiplier: nat := 170

  // ---------------------------------------------------------------------
  // Normalisation of the fetched products
  // ---------------------------------------------------------------------

  /** One `{ id: String(product.id), ... }`: the string id reads back to the
      numeric one and every other field is copied. */
  function NormalizeProduct(p: RemoteProduct): (q: Product)
    ensures q.id == IntToDecimal(p.id)
    ensures ParseIntDecimal(q.id) == p.id
    ensures q.title == p.title && q.price == p.price && q.category == p.category
    ensures q.description == p.description && q.image == p.image
  {
    IntDecimalRoundTrip(p.id);
    Product(IntToDecimal(p.id), p.title, p.price, p.category, p.description, p.image)
  }

  /** `data.map(product => ({ id: String(product.id), ... }))`: same length and
      order, each id rendered in decimal, every other field copied. */
  function NormalizeProducts(data: seq<RemoteProduct>): (products: seq<Product>)
    ensures |products| == |data|
    ensures forall i :: 0 <= i < |data| ==>
      && products[i].id == IntToDecimal(data[i].id)
      && ParseIntDecimal(products[i].id) == data[i].id
      && products[i].title == data[i].title
      && products[i].price == data[i].price
      && products[i].category == data[i].category
      && products[i].description == data[i].description
      && products[i].image == data[i].image
  {
    seq(|data|, i requires 0 <= i < |data| => NormalizeProduct(data[i]))
  }

  /** No two products of `products` share an id (React renders them keyed by id). */
  predicate DistinctIds(products: seq<Product>) {
    forall a, b :: 0 <= a < b < |products| ==> products[a].id != products[b].id
  }

  predicate DistinctRemoteIds(data: seq<RemoteProduct>) {
    forall a, b :: 0 <= a < b < |data| ==> data[a].id != data[b].id
  }

  /** Distinct numeric ids stay distinct once rendered as strings. */
  lemma NormalizedIdsDistinct(data: seq<RemoteProduct>)
    requires DistinctRemoteIds(data)
    ensures DistinctIds(NormalizeProducts(data))
  {
  }

  // ---------------------------------------------------------------------
  // createExpandedDataset
  // ---------------------------------------------------------------------

  /** The id of copy number `index` of a product with id `id`: `${id}-${index}`,
      the original id, a dash, and the decimal numeral of `index` (which
      CopyIdInjective shows can be split off again). */
  function CopyId(id: string, index: nat): (r: string)
    ensures |r| > |id| + 1 && r[..|id|] == id && r[|id|] == '-'
    ensures r[|id| + 1..] == NatToDecimal(index)
  {
    var r := id + "-" + NatToDecimal(index);
    assert r[..|id|] == id && r[|id| + 1..] == NatToDecimal(index);
    r
  }

  /** Copy number `index` of `p`: `{ ...p, id: CopyId(p.id, index) }`, equal to
      `p` in every field but the id. */
  function CopyOf(p: Product, index: nat): (c: Product)
    ensures c.id == CopyId(p.id, index)
    ensures c.title == p.title && c.price == p.price && c.category == p.category
    ensures c.description == p.description && c.image == p.image
  {
    p.(id := CopyId(p.id, index))
  }

  /** `Array.from({ length: multiplier }, (_, index) => CopyOf(p, index))`. */
  function Copies(p: Product, multiplier: nat): (r: seq<Product>)
    ensures |r| == multiplier
    ensures forall k :: 0 <= k < multiplier ==> r[k] == CopyOf(p, k)
  {
    seq(multiplier, k requires 0 <= k < multiplier => CopyOf(p, k))
  }

  /** `source.flatMap(product => Copies(product, multiplier))`. */
  function FlatCopies(source: seq<Product>, multiplier: nat): (r: seq<Product>)
    ensures r == [] <==> source == [] || multiplier == 0
    decreases |source|
  {
    if source == [] then [] else Copies(source[0], multiplier) + FlatCopies(source[1..], multiplier)
  }

  /** `createExpandedDataset(source, multiplier)`. */
  function CreateExpandedDataset(source: seq<Product>, multiplier: nat := DefaultMultiplier): (expanded: seq<Product>)
    ensures source == [] ==> expanded == []
  {
    if |source| == 0 then [] else FlatCopies(source, multiplier)
  }

  lemma MulSucc(n: nat, m: nat)
    ensures (n + 1) * m == n * m + m
  {
  }

  lemma {:induction false} FlatCopiesAt(source: seq<Product>, multiplier: nat, i: nat, k: nat, j: nat)
    requires i < |source| && k < multiplier && j == i * multiplier + k
    ensures j < |FlatCopies(source, multiplier)|
    ensures FlatCopies(source, multiplier)[j] == CopyOf(source[i], k)
    decreases |source|
  {
    var head := Copies(source[0], multiplier);
    var tail := FlatCopies(source[1..], multiplier);
    assert FlatCopies(source, multiplier) == head + tail;
    if i == 0 {
      assert j == k;
      assert (head + tail)[k] == head[k];
    } else {
      MulSucc(i - 1, multiplier);
      FlatCopiesAt(source[1..], multiplier, i - 1, k, j - multiplier);
      assert (head + tail)[j] == tail[j - multiplier];
    }
  }

  /** The expanded dataset has `multiplier` copies of each source product. */
  lemma ExpandedLength(source: seq<Product>, multiplier: nat)
    ensures |CreateExpandedDataset(source, multiplier)| == |source| * multiplier
  {
    FlatCopiesLength(source, multiplier);
  }

  lemma {:induction false} FlatCopiesLength(source: seq<Product>, multiplier: nat)
    ensures |FlatCopies(source, multiplier)| == |source| * multiplier
    decreases |source|
  {
    if source != [] {
      var tail := FlatCopies(source[1..], multiplier);
      assert |FlatCopies(source, multiplier)| == multiplier + |tail|;
      FlatCopiesLength(source[1..], multiplier);
      MulSucc(|source| - 1, multiplier);
    }
  }

  /** Copy `k` of `source[i]` sits at position `i * multiplier + k`: the
      copies are grouped in source order, with the suffix ascending within a
      group, and each equals its original except for the suffixed id. */
  lemma ExpandedAt(source: seq<Product>, multiplier: nat, i: nat, k: nat)
    requires i < |source| && k < multiplier
    ensures i * multiplier + k < |CreateExpandedDataset(source, multiplier)|
    ensures CreateExpandedDataset(source, multiplier)[i * multiplier + k] == CopyOf(source[i], k)
  {
    var j := i * multiplier + k;
    assert CreateExpandedDataset(source, multiplier) == FlatCopies(source, multiplier);
    FlatCopiesAt(source, multiplier, i, k, j);
  }

  /** A dash followed by text with no dash can be split off only one way. */
  lemma SplitAtLastDash(a: string, x: string, b: string, y: string)
    requires '-' !in x && '-' !in y
    requires a + "-" + x == b + "-" + y
    ensures a == b && x == y
  {
    var s := a + "-" + x;
    assert s[|a|] == '-' && s[|b|] == '-';
    assert |x| == |y|;
    assert a == s[..|a|] && b == s[..|b|];
    assert x == s[|a| + 1..] && y == s[|b| + 1..];
  }

  lemma CopyIdInjective(id1: string, k1: nat, id2: string, k2: nat)
    requires CopyId(id1, k1) == CopyId(id2, k2)
    ensures id1 == id2 && k1 == k2
  {
    var d1, d2 := NatToDecimal(k1), NatToDecimal(k2);
    assert '-' !in d1 && '-' !in d2 by { assert !IsDigit('-'); }
    SplitAtLastDash(id1, d1, id2, d2);
    NatToDecimalInjective(k1, k2);
  }

  /** Two different copies, of one product or of two with distinct ids, get different ids. */
  lemma CopyIdsDistinct(source: seq<Product>, ia: nat, ka: nat, ib: nat, kb: nat)
    requires DistinctIds(source)
    requires ia < |source| && ib < |source|
    requires ia != ib || ka != kb
    ensures CopyOf(source[ia], ka).id != CopyOf(source[ib], kb).id
  {
    if CopyOf(source[ia], ka).id == CopyOf(source[ib], kb).id {
      CopyIdInjective(source[ia].id, ka, source[ib].id, kb);
    }
  }

  lemma {:induction false} FlatCopiesOrigin(source: seq<Product>, multiplier: nat, j: nat) returns (i: nat, k: nat)
    requires j < |FlatCopies(source, multiplier)|
    ensures i < |source| && k < multiplier && j == i * multiplier + k
    ensures FlatCopies(source, multiplier)[j] == CopyOf(source[i], k)
    decreases |source|
  {
    var head := Copies(source[0], multiplier);
    var tail := FlatCopies(source[1..], multiplier);
    assert FlatCopies(source, multiplier) == head + tail;
    if j < multiplier {
      i, k := 0, j;
      assert (head + tail)[j] == head[j];
    } else {
      var n;
      n, k := FlatCopiesOrigin(source[1..], multiplier, j - multiplier);
      i := n + 1;
      MulSucc(n, multiplier);
      assert (head + tail)[j] == tail[j - multiplier];
    }
  }

  /** Conversely, every position `j` of the expanded dataset holds copy `k`
      of source product `i`, where `j == i * multiplier + k`. */
  lemma ExpandedOrigin(source: seq<Product>, multiplier: nat, j: nat) returns (i: nat, k: nat)
    requires j < |CreateExpandedDataset(source, multiplier)|
    ensures i < |source| && k < multiplier && j == i * multiplier + k
    ensures CreateExpandedDataset(source, multiplier)[j] == CopyOf(source[i], k)
  {
    i, k := FlatCopiesOrigin(source, multiplier, j);
  }

  lemma ExpandedPairDistinct(source: seq<Product>, multiplier: nat, a: nat, b: nat)
    requires DistinctIds(source)
    requires a < b < |CreateExpandedDataset(source, multiplier)|
    ensures CreateExpandedDataset(source, multiplier)[a].id != CreateExpandedDataset(source, multiplier)[b].id
  {
    var ia, ka := ExpandedOrigin(source, multiplier, a);
    var ib, kb := ExpandedOrigin(source, multiplier, b);
    CopyIdsDistinct(source, ia, ka, ib, kb);
  }

  /** If the source ids are distinct, so are the ids of the expanded dataset. */
  lemma ExpandedIdsDistinct(source: seq<Product>, multiplier: nat)
    requires DistinctIds(source)
    ensures DistinctIds(CreateExpandedDataset(source, multiplier))
  {
    var e := CreateExpandedDataset(source, multiplier);
    ExpandedLength(source, multiplier);
    forall a, b | 0 <= a < b < |e| ensures e[a].id != e[b].id {
      ExpandedPairDistinct(source, multiplier, a, b);
    }
  }

  /** The product list as the page normalises and expands it. */
  lemma PageDatasetIdsDistinct(data: seq<RemoteProduct>)
    requires DistinctRemoteIds(data)
    ensures DistinctIds(CreateExpandedDataset(NormalizeProducts(data), PageMultiplier))
    ensures |CreateExpandedDataset(NormalizeProducts(data), PageMultiplier)| == 170 * |data|
  {
    NormalizedIdsDistinct(data);
    ExpandedIdsDistinct(NormalizeProducts(data), PageMultiplier);
    ExpandedLength(NormalizeProducts(data), PageMultiplier);
  }

  // ---------------------------------------------------------------------
  // The search filter
  // ---------------------------------------------------------------------

  /** `value.trim().toLowerCase()`: the input with its leading and trailing
      white space removed, lowercased; it neither starts nor ends with white
      space, and is empty exactly for a blank input. */
  function NormalizeQuery(value: string): (q: string)
    ensures exists a, b ::
      0 <= a <= b <= |value| && q == ToLower(value[a..b]) && AllWhitespace(value[..a]) && AllWhitespace(value[b..])
    ensures q == [] <==> AllWhitespace(value)
    ensures q != [] ==> !IsJsWhitespace(q[0]) && !IsJsWhitespace(q[|q| - 1])
    ensures |q| <= |value|
  {
    var t := Trim(value);
    ToLowerKeepsWhitespace(t);
    ToLower(t)
  }

  /** `${product.title} ${product.category}`.toLowerCase(). */
  function Haystack(p: Product): string {
    ToLower(p.title + " " + p.category)
  }

  /** The haystack is the lowercased title, a space, and the lowercased
      category: lowercasing the joined string is joining the lowercased parts. */
  lemma HaystackParts(p: Product)
    ensures Haystack(p) == ToLower(p.title) + " " + ToLower(p.category)
  {
    ToLowerConcat(p.title + " ", p.category);
    ToLowerConcat(p.title, " ");
  }

  /** `haystack.includes(normalized)`: the query occurs somewhere in the haystack. */
  predicate Matches(p: Product, query: string)
    ensures Matches(p, query) <==> exists i :: OccursAt(Haystack(p), query, i)
  {
    Includes(Haystack(p), query)
  }

  /** `sub` is `full` with some elements left out, the rest in their order. */
  predicate IsSubsequence(sub: seq<Product>, full: seq<Product>)
    decreases |full|
  {
    if full == [] then sub == []
    else
      || (sub != [] && sub[0] == full[0] && IsSubsequence(sub[1..], full[1..]))
      || IsSubsequence(sub, full[1..])
  }

  lemma {:induction false} SubsequenceShorter(sub: seq<Product>, full: seq<Product>)
    requires IsSubsequence(sub, full)
    ensures |sub| <= |full|
    decreases |full|
  {
    if full != [] {
      if sub != [] && sub[0] == full[0] && IsSubsequence(sub[1..], full[1..]) {
        SubsequenceShorter(sub[1..], full[1..]);
      } else {
        SubsequenceShorter(sub, full[1..]);
      }
    }
  }

  lemma {:induction false} SubsequenceReflexive(s: seq<Product>)
    ensures IsSubsequence(s, s)
    decreases |s|
  {
    if s != [] {
      SubsequenceReflexive(s[1..]);
    }
  }

  /** `products.filter(p => Matches(p, query))`: an order-preserving
      subsequence that holds every matching product as often as `products`
      does and no other product. */
  function KeepMatching(products: seq<Product>, query: string): (kept: seq<Product>)
    ensures IsSubsequence(kept, products)
    ensures forall p :: p in kept <==> p in products && Matches(p, query)
    ensures forall p :: multiset(kept)[p] == if Matches(p, query) then multiset(products)[p] else 0
    decreases |products|
  {
    if products == [] then []
    else
      var rest := KeepMatching(products[1..], query);
      assert products == [products[0]] + products[1..];
      if Matches(products[0], query) then
        assert ([products[0]] + rest)[1..] == rest;
        [products[0]] + rest
      else
        rest
  }

  /** The list `performFilterSync` shows for the input `value`: everything when
      the normalised query is empty, otherwise exactly the products whose
      lowercased "title category" contains it, in their original order. */
  function FilterProducts(products: seq<Product>, value: string): (shown: seq<Product>)
    ensures NormalizeQuery(value) == [] ==> shown == products
    ensures NormalizeQuery(value) != [] ==> shown == KeepMatching(products, NormalizeQuery(value))
    ensures IsSubsequence(shown, products) && |shown| <= |products|
  {
    var normalized := NormalizeQuery(value);
    if |normalized| == 0 then
      SubsequenceReflexive(products);
      products
    else
      var kept := KeepMatching(products, normalized);
      SubsequenceShorter(kept, products);
      kept
  }

  /** An empty normalised query filters nothing out, whatever the products. */
  lemma BlankQueryKeepsAll(products: seq<Product>, value: string)
    requires AllWhitespace(value)
    ensures FilterProducts(products, value) == products
  {
  }

  /** A product is shown for a non-blank query exactly when it matches. */
  lemma ShownIffMatches(products: seq<Product>, value: string, p: Product)
    requires !AllWhitespace(value)
    ensures p in FilterProducts(products, value) <==> p in products && Matches(p, NormalizeQuery(value))
  {
  }

  // ---------------------------------------------------------------------
  // The page state behind handleSearchChange
  // ---------------------------------------------------------------------

  /** The state slots of the page once the products have loaded. The
      expanded dataset is derived from the loaded products. */
  class SearchPanel {
    const expandedProducts: seq<Product>
    var searchTerm: string
    var isNonTransitionPending: bool
    var nonTransitionFiltered: seq<Product>

    ghost predicate Valid()
      reads this
    {
      IsSubsequence(nonTransitionFiltered, expandedProducts)
    }

    /** `totalCount`, the size shown beside the list; the shown list is never
        longer. */
    function TotalCount(): (total: nat)
      reads this
      ensures Valid() ==> |nonTransitionFiltered| <= total
    {
      assert Valid() ==> |nonTransitionFiltered| <= |expandedProducts| by {
        if Valid() {
          SubsequenceShorter(nonTransitionFiltered, expandedProducts);
        }
      }
      |expandedProducts|
    }

    /** The page after `products` arrived: the memoised expansion by 170,
        and the shown list synchronised to it. */
    constructor (products: seq<Product>)
      ensures Valid()
      ensures expandedProducts == CreateExpandedDataset(products, PageMultiplier)
      ensures searchTerm == "" && !isNonTransitionPending
      ensures nonTransitionFiltered == expandedProducts
    {
      expandedProducts := CreateExpandedDataset(products, PageMultiplier);
      searchTerm := "";
      isNonTransitionPending := false;
      nonTransitionFiltered := CreateExpandedDataset(products, PageMultiplier);
      SubsequenceReflexive(CreateExpandedDataset(products, PageMultiplier));
    }

    /** `handleSearchChange(value)`: records the input, filters synchronously
        and clears the pending flag again. */
    method HandleSearchChange(value: string)
      requires Valid()
      modifies this
      ensures Valid()
      ensures searchTerm == value && !isNonTransitionPending
      ensures nonTransitionFiltered == FilterProducts(expandedProducts, value)
      ensures |nonTransitionFiltered| <= TotalCount()
    {
      searchTerm := value;
      isNonTransitionPending := true;
      var normalized := NormalizeQuery(value);
      if |normalized| == 0 {
        nonTransitionFiltered := expandedProducts;
        SubsequenceReflexive(expandedProducts);
      } else {
        nonTransitionFiltered := KeepMatching(expandedProducts, normalized);
      }
      isNonTransitionPending := false;
    }
  }
}
