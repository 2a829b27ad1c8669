/** The storage layer: one ordered sequence of products, scanned and
    mutated by identifier. The specification functions come first; the
    class after them is the in-place store, each method proved against
    those functions. */
module ProductRepository {
  import opened Domain
  import opened Sequences

  /** Position of the first product carrying `id`: the element the
      break-on-match scans of Update, UpdateName and FindById stop at. */
  function FirstIndex(s: seq<Product>, id: int): (r: Option<nat>)
    ensures r.Some? ==> r.value < |s| && s[r.value].id == id
    ensures r.Some? ==> forall j :: 0 <= j < r.value ==> s[j].id != id
    ensures r.None? <==> forall j :: 0 <= j < |s| ==> s[j].id != id
  {
    if s == [] then None
    else if s[0].id == id then Some(0)
    else match FirstIndex(s[1..], id)
      case None => None
      case Some(k) => Some(k + 1)
  }

  /** Position of the last product carrying `id`: the element Delete's
      full scan ends up remembering. */
  function LastIndex(s: seq<Product>, id: int): (r: Option<nat>)
    ensures r.Some? ==> r.value < |s| && s[r.value].id == id
    ensures r.Some? ==> forall j :: r.value < j < |s| ==> s[j].id != id
    ensures r.None? <==> forall j :: 0 <= j < |s| ==> s[j].id != id
  {
    if s == [] then None
    else if s[|s| - 1].id == id then Some(|s| - 1)
    else LastIndex(s[..|s| - 1], id)
  }

  /** No two stored products share an identifier. */
  predicate UniqueIds(s: seq<Product>)
  {
    forall i, j :: 0 <= i < j < |s| ==> s[i].id != s[j].id
  }

  /** `s` without its element at position `i`; the rest keep their order. */
  function Removed(s: seq<Product>, i: nat): (r: seq<Product>)
    requires i < |s|
    ensures |r| == |s| - 1
    ensures forall k :: 0 <= k < i ==> r[k] == s[k]
    ensures forall k :: i <= k < |r| ==> r[k] == s[k + 1]
  {
    s[..i] + s[i + 1..]
  }

  /** The products Search selects: price strictly above `priceGt`. */
  function PricedAbove(s: seq<Product>, priceGt: real): (r: seq<Product>)
    ensures forall i :: 0 <= i < |r| ==> r[i] in s && r[i].price > priceGt
    ensures forall i :: 0 <= i < |s| && s[i].price > priceGt ==> s[i] in r
  {
    Filter(s, (p: Product) => p.price > priceGt)
  }

  /** The published products carrying `id`, in storage order: what the
      inner loop of ConsumerPrice collects for one requested id. */
  function PublishedWithId(s: seq<Product>, id: int): (r: seq<Product>)
    ensures forall i :: 0 <= i < |r| ==> r[i] in s && r[i].id == id && r[i].isPublished
    ensures forall i :: 0 <= i < |s| && s[i].id == id && s[i].isPublished ==> s[i] in r
  {
    Filter(s, (p: Product) => p.id == id && p.isPublished)
  }

  /** What ConsumerPrice collects: for each requested id in list order,
      the published products carrying it, in storage order. */
  function PublishedForIds(s: seq<Product>, list: seq<int>): (r: seq<Product>)
    ensures forall i :: 0 <= i < |r| ==> r[i] in s && r[i].isPublished && r[i].id in list
    ensures forall i :: 0 <= i < |s| && s[i].isPublished && s[i].id in list ==> s[i] in r
  {
    if list == [] then []
    else
      var init, last := list[..|list| - 1], list[|list| - 1];
      assert list == init + [last];
      PublishedForIds(s, init) + PublishedWithId(s, last)
  }

  class SliceBasedRepository {
    var products: seq<Product>

    /** Wraps the sequence the JSON store loaded at start-up. */
    constructor (loaded: seq<Product>)
      ensures products == loaded
    {
      products := loaded;
    }

    /** Assigns the next identifier (current length + 1) and appends. The
        caller's product gets that identifier too, as through the Go
        pointer. Never fails. */
    method Create(product: Product) returns (created: Product, err: Option<Error>)
      modifies this
      ensures created == product.(id := |old(products)| + 1)
      ensures products == old(products) + [created]
      ensures err == None
    {
      created := product.(id := |products| + 1);
      products := products + [created];
      err := None;
    }

    /** Replaces the first product with the same identifier. */
    method Update(product: Product) returns (err: Option<Error>)
      modifies this
      ensures var j := FirstIndex(old(products), product.id);
        if j.Some? then err == None && products == old(products)[j.value := product]
        else err == Some(ProductNotFound) && products == old(products)
    {
      var updated := false;
      for i := 0 to |products|
        invariant products == old(products) && !updated
        invariant forall j :: 0 <= j < i ==> products[j].id != product.id
      {
        if products[i].id == product.id {
          products := products[i := product];
          updated := true;
          break;
        }
      }
      if !updated {
        return Some(ProductNotFound);
      }
      err := None;
    }

    /** Renames the first product with identifier `id`. As in the source,
        the product returned is the zero value, not the renamed one. */
    method UpdateName(id: int, name: string) returns (product: Product, err: Option<Error>)
      modifies this
      ensures product == ZeroProduct
      ensures var j := FirstIndex(old(products), id);
        if j.Some? then
          err == None && products == old(products)[j.value := old(products)[j.value].(name := name)]
        else err == Some(ProductNotFound) && products == old(products)
    {
      var updated := false;
      product := ZeroProduct;
      for i := 0 to |products|
        invariant products == old(products) && !updated
        invariant forall j :: 0 <= j < i ==> products[j].id != id
      {
        if products[i].id == id {
          products := products[i := products[i].(name := name)];
          updated := true;
          break;
        }
      }
      if !updated {
        return ZeroProduct, Some(ProductNotFound);
      }
      err := None;
    }

    /** The stored sequence itself; never fails. */
    method GetAll() returns (all: seq<Product>, err: Option<Error>)
      ensures all == products && err == None
    {
      return products, None;
    }

    /** The first product with identifier `id`, or the zero product and
        ProductNotFound. */
    method FindById(id: int) returns (product: Product, err: Option<Error>)
      ensures var j := FirstIndex(products, id);
        if j.Some? then product == products[j.value] && err == None
        else product == ZeroProduct && err == Some(ProductNotFound)
    {
      for i := 0 to |products|
        invariant forall j :: 0 <= j < i ==> products[j].id != id
      {
        if products[i].id == id {
          return products[i], None;
        }
      }
      return ZeroProduct, Some(ProductNotFound);
    }

    /** The products priced strictly above `priceGt`, in storage order;
        never fails. */
    method Search(priceGt: real) returns (filtered: seq<Product>, err: Option<Error>)
      ensures filtered == PricedAbove(products, priceGt)
      ensures err == None
    {
      filtered := [];
      for i := 0 to |products|
        invariant filtered == PricedAbove(products[..i], priceGt)
      {
        assert products[..i + 1][..i] == products[..i];
        if products[i].price > priceGt {
          filtered := filtered + [products[i]];
        }
      }
      assert products[..|products|] == products;
      err := None;
    }

    /** Removes the product at the LAST position carrying `id`. The JSON
        store's save that follows is an external effect and is not
        modelled. */
    method Delete(id: int) returns (err: Option<Error>)
      modifies this
      ensures var j := LastIndex(old(products), id);
        if j.Some? then err == None && products == Removed(old(products), j.value)
        else err == Some(ProductNotFound) && products == old(products)
    {
      var deleted := false;
      var index: nat := 0;
      for i := 0 to |products|
        invariant deleted == LastIndex(products[..i], id).Some?
        invariant deleted ==> LastIndex(products[..i], id) == Some(index)
      {
        assert products[..i + 1][..i] == products[..i];
        if products[i].id == id {
          index := i;
          deleted := true;
        }
      }
      assert products[..|products|] == products;
      if !deleted {
        return Some(ProductNotFound);
      }
      products := products[..index] + products[index + 1..];
      err := None;
    }

    /** For each requested id in order, every published product with that
        id, in storage order; never fails and changes nothing. */
    method ConsumerPrice(list: seq<int>) returns (filtered: seq<Product>, err: Option<Error>)
      ensures filtered == PublishedForIds(products, list)
      ensures err == None
    {
      filtered := [];
      for k := 0 to |list|
        invariant filtered == PublishedForIds(products, list[..k])
      {
        var id := list[k];
        var prefix := filtered;
        assert list[..k + 1][..k] == list[..k];
        for i := 0 to |products|
          invariant filtered == prefix + PublishedWithId(products[..i], id)
        {
          assert products[..i + 1][..i] == products[..i];
          if products[i].id == id && products[i].isPublished {
            filtered := filtered + [products[i]];
          }
        }
        assert products[..|products|] == products;
      }
      assert list[..|list|] == list;
      err := None;
    }
  }

  /** After Update, looking the identifier up finds the new product at the
      position that was replaced. */
  lemma UpdateThenFind(s: seq<Product>, product: Product)
    requires FirstIndex(s, product.id).Some?
    ensures var i := FirstIndex(s, product.id).value;
      FirstIndex(s[i := product], product.id) == Some(i)
  {
    var i := FirstIndex(s, product.id).value;
    assert s[i := product][i].id == product.id;
  }

  /** A created product whose identifier was not in use is what a lookup
      of that identifier finds, at the end of the sequence. */
  lemma CreateThenFind(s: seq<Product>, product: Product)
    requires forall k :: 0 <= k < |s| ==> s[k].id != |s| + 1
    ensures FirstIndex(s + [product.(id := |s| + 1)], |s| + 1) == Some(|s|)
  {
    var t := s + [product.(id := |s| + 1)];
    assert t[|s|].id == |s| + 1;
  }

  /** Renaming changes no identifier, so every lookup, by any identifier,
      finds the same position afterwards. */
  lemma RenameKeepsLookups(s: seq<Product>, i: nat, name: string, id: int)
    requires i < |s|
    ensures FirstIndex(s[i := s[i].(name := name)], id) == FirstIndex(s, id)
  {
    var t := s[i := s[i].(name := name)];
    assert forall k :: 0 <= k < |s| ==> t[k].id == s[k].id;
    var a, b := FirstIndex(t, id), FirstIndex(s, id);
    if a.Some? && b.Some? {
      assert t[a.value].id == id && s[b.value].id == id;
    }
  }

  /** With unique identifiers, the first and the last match coincide, so
      Delete's last-match rule removes the one product FindById sees. */
  lemma FirstIsLastWhenUnique(s: seq<Product>, id: int)
    requires UniqueIds(s)
    ensures FirstIndex(s, id) == LastIndex(s, id)
  {
  }

  /** With unique identifiers, a product that was deleted can no longer be
      found. */
  lemma DeleteThenFind(s: seq<Product>, id: int)
    requires UniqueIds(s)
    requires LastIndex(s, id).Some?
    ensures FirstIndex(Removed(s, LastIndex(s, id).value), id).None?
  {
  }

  /** While every identifier is at most the number of stored products,
      Create's length + 1 is fresh: uniqueness and that bound survive it.
      Delete does not keep the bound (deleting identifier 1 from 1, 2, 3
      leaves 3 above a count of 2), which is how the collision in
      DeleteThenCreateCollides arises. */
  lemma CreateKeepsIdsUnique(s: seq<Product>, product: Product)
    requires UniqueIds(s)
    requires forall k :: 0 <= k < |s| ==> s[k].id <= |s|
    ensures var t := s + [product.(id := |s| + 1)];
      UniqueIds(t) && forall k :: 0 <= k < |t| ==> t[k].id <= |t|
  {
  }

  /** Identifiers can collide: create three, delete the second, create a
      fourth, and it receives identifier 3 a second time. */
  lemma DeleteThenCreateCollides(p: Product)
    ensures var s := [p.(id := 1), p.(id := 2), p.(id := 3)];
      var j := LastIndex(s, 2);
      j == Some(1) &&
      var t := Removed(s, j.value);
      var u := t + [p.(id := |t| + 1)];
      UniqueIds(s) && !UniqueIds(u) && u[1].id == u[2].id == 3
  {
    var s := [p.(id := 1), p.(id := 2), p.(id := 3)];
    assert s[..2] == [p.(id := 1), p.(id := 2)];
    assert LastIndex(s, 2) == Some(1);
    var t := Removed(s, 1);
    assert t == [p.(id := 1), p.(id := 3)];
    var u := t + [p.(id := |t| + 1)];
    assert u[1].id == u[2].id == 3;
  }

  /** Search keeps storage order and multiplicity: its answer is a
      subsequence of storage holding every copy of each product priced
      above the threshold and no other. */
  lemma {:induction false} SearchIsOrderedSelection(s: seq<Product>, priceGt: real, p: Product)
    ensures IsSubsequence(PricedAbove(s, priceGt), s)
    ensures multiset(PricedAbove(s, priceGt))[p] == if p.price > priceGt then multiset(s)[p] else 0
  {
    FilterIsSubsequence(s, (q: Product) => q.price > priceGt);
    FilterCount(s, (q: Product) => q.price > priceGt, p);
  }

  /** One more requested id appends that id's published products. */
  lemma PublishedForIdsSnoc(s: seq<Product>, list: seq<int>, id: int)
    ensures PublishedForIds(s, list + [id]) == PublishedForIds(s, list) + PublishedWithId(s, id)
  {
    assert (list + [id])[..|list + [id]| - 1] == list;
  }

  /** ConsumerPrice distributes over the requested list, so an id listed
      twice yields its products twice. */
  lemma {:induction false} PublishedForIdsAppend(s: seq<Product>, a: seq<int>, b: seq<int>)
    ensures PublishedForIds(s, a + b) == PublishedForIds(s, a) + PublishedForIds(s, b)
  {
    if b == [] {
      assert a + b == a;
    } else {
      var init, last := b[..|b| - 1], b[|b| - 1];
      var w := PublishedWithId(s, last);
      assert b == init + [last];
      assert a + b == (a + init) + [last];
      calc {
        PublishedForIds(s, a + b);
        { PublishedForIdsSnoc(s, a + init, last); }
        PublishedForIds(s, a + init) + w;
        { PublishedForIdsAppend(s, a, init); }
        (PublishedForIds(s, a) + PublishedForIds(s, init)) + w;
        PublishedForIds(s, a) + (PublishedForIds(s, init) + w);
        { PublishedForIdsSnoc(s, init, last); }
        PublishedForIds(s, a) + PublishedForIds(s, b);
      }
    }
  }
}
