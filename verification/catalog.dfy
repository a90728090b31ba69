/** The product catalog's own rules: the first three products are
    featured and cannot be deleted, and a new product's image list is
    assembled from uploaded files and typed-in links. */
module Catalog {
  import opened Values
  import opened Records

  /** Products at positions 0, 1 and 2 are the featured homepage products. */
  const FeaturedCount: nat := 3

  /** Public path under which an uploaded image file is served. */
  const UploadPrefix := "/uploads/"

  /** Decision of the product delete route, before any write. */
  datatype DeleteOutcome = Refused | Rewritten(products: seq<Record>)

  /** The product delete route: `findIndex` locates the FIRST product with
      the id; a position below three refuses the delete; otherwise the list
      is rewritten without EVERY product carrying that id. */
  function ProductDelete(products: seq<Record>, id: string): (r: DeleteOutcome)
    ensures r.Refused? <==> exists k :: 0 <= k < Min(FeaturedCount, |products|) && products[k].id == id
    ensures r.Rewritten? ==> r.products == RemoveId(products, id)
  {
    var k := FirstIndex(products, id);
    if 0 <= k < FeaturedCount then Refused else Rewritten(RemoveId(products, id))
  }

  function Min(a: nat, b: nat): nat { if a < b then a else b }

  /** A delete that goes through never touches the featured products: the
      first three records are still the first three, in the same order.
      (Every match lies at position three or later, because the first one does.) */
  lemma ProductDeleteKeepsFeatured(products: seq<Record>, id: string)
    requires ProductDelete(products, id).Rewritten?
    ensures var n := Min(FeaturedCount, |products|);
            var after := ProductDelete(products, id).products;
            n <= |after| && after[..n] == products[..n]
  {
    var n := Min(FeaturedCount, |products|);
    var front, back := products[..n], products[n..];
    assert products == front + back;
    assert forall k :: 0 <= k < n ==> front[k].id != id;
    RemoveIdAppend(front, back, id);
    RemoveIdIdentity(front, id);
    assert RemoveId(products, id) == front + RemoveId(back, id);
  }

  /** Deleting an id that no product has passes the featured check and
      rewrites the same list. */
  lemma ProductDeleteAbsent(products: seq<Record>, id: string)
    requires !HasId(products, id)
    ensures ProductDelete(products, id) == Rewritten(products)
  {
    RemoveIdUnchangedIff(products, id);
  }

  /** A delete that goes through removes every product with the id and
      nothing else: the list shrinks by the number of matches, which is one
      when ids are unique and the id is present. */
  lemma ProductDeleteShrinks(products: seq<Record>, id: string)
    requires ProductDelete(products, id).Rewritten?
    ensures var after := ProductDelete(products, id).products;
            && |after| == |products| - CountId(products, id)
            && (forall x :: x in after <==> x in products && x.id != id)
            && (UniqueIds(products) && HasId(products, id) ==> |after| == |products| - 1)
  {
    forall x ensures x in RemoveId(products, id) <==> x in products && x.id != id {
      RemoveIdMembers(products, id, x);
    }
    if UniqueIds(products) && HasId(products, id) {
      UniqueCount(products, id);
    }
  }

  /** Four products with distinct ids: deleting the fourth succeeds and
      leaves the first three. */
  lemma DeleteFourthOfFour(products: seq<Record>)
    requires |products| == 4 && UniqueIds(products)
    ensures ProductDelete(products, products[3].id) == Rewritten(products[..3])
  {
    var id := products[3].id;
    assert FirstIndex(products, id) == 3;
    assert products == products[..3] + [products[3]];
    RemoveIdAppend(products[..3], [products[3]], id);
    RemoveIdIdentity(products[..3], id);
    RemoveIdSingle(products[3], id);
  }

  /** A catalog of one product: deleting it is refused (position 0). */
  lemma DeleteOnlyProductRefused(p: Record)
    ensures ProductDelete([p], p.id) == Refused
  {
  }

  /** `items.map(link => link.trim())`: `None` when some item is not a
      string (`trim` is not a function of it and the handler throws). */
  function TrimAll(items: seq<Value>): (r: Option<seq<string>>)
    ensures r.Some? <==> forall k :: 0 <= k < |items| ==> items[k].Str?
    ensures r.Some? ==> |r.value| == |items|
    ensures r.Some? ==> forall k :: 0 <= k < |items| ==> r.value[k] == Trim(items[k].s)
  {
    if items == [] then Some([])
    else if !items[0].Str? then None
    else
      match TrimAll(items[1..])
      case None => None
      case Some(rest) => Some([Trim(items[0].s)] + rest)
  }

  /** The images contributed by the `imageLinks` field: a non-empty string
      gives its trimmed self; an array gives each item trimmed; anything
      else (including the empty string, which is falsy) gives nothing. */
  function LinkImages(imageLinks: Value): (r: Option<seq<string>>)
    ensures r.None? <==> imageLinks.Arr? && exists k :: 0 <= k < |imageLinks.items| && !imageLinks.items[k].Str?
    ensures imageLinks.Str? ==> r == Some(if imageLinks.s == "" then [] else [Trim(imageLinks.s)])
    ensures imageLinks.Arr? && r.Some? ==>
              && |r.value| == |imageLinks.items|
              && forall k :: 0 <= k < |r.value| ==> r.value[k] == Trim(imageLinks.items[k].s)
    ensures !imageLinks.Str? && !imageLinks.Arr? ==> r == Some([])
  {
    match imageLinks
    case Str(s) => Some(if s != "" then [Trim(s)] else [])
    case Arr(items) => TrimAll(items)
    case _ => Some([])
  }

  /** The image list a new product is stored with: one upload path per
      file, in upload order, then the links. */
  function ImageList(files: seq<string>, links: seq<string>): (images: seq<string>)
    ensures |images| == |files| + |links|
    ensures forall k :: 0 <= k < |files| ==> images[k] == UploadPrefix + files[k]
    ensures images[|files|..] == links
  {
    seq(|files|, k requires 0 <= k < |files| => UploadPrefix + files[k]) + links
  }

  /** The loop behind `imageLinks.map(link => link.trim())`: each item
      trimmed in turn, stopping with `None` at the first non-string item. */
  method TrimLinks(items: seq<Value>) returns (r: Option<seq<string>>)
    ensures r == TrimAll(items)
  {
    var links: seq<string> := [];
    var j := 0;
    while j < |items|
      invariant 0 <= j <= |items|
      invariant |links| == j
      invariant forall k :: 0 <= k < j ==> items[k].Str? && links[k] == Trim(items[k].s)
    {
      if !items[j].Str? {
        return None;
      }
      links := links + [Trim(items[j].s)];
      j := j + 1;
    }
    assert TrimAll(items).value == links;
    return Some(links);
  }

  /** The `images` list of a new product: `/uploads/<filename>` for each
      uploaded file, in upload order, then the trimmed links. `None` is the
      throw on a non-string link. */
  method AssembleImages(files: seq<string>, imageLinks: Value) returns (images: Option<seq<string>>)
    ensures images.None? <==> imageLinks.Arr? && exists k :: 0 <= k < |imageLinks.items| && !imageLinks.items[k].Str?
    ensures images.Some? ==> LinkImages(imageLinks).Some?
    ensures images.Some? ==> |images.value| == |files| + |LinkImages(imageLinks).value|
    ensures images.Some? ==> forall k :: 0 <= k < |files| ==> images.value[k] == UploadPrefix + files[k]
    ensures images.Some? ==> images.value[|files|..] == LinkImages(imageLinks).value
    ensures images.Some? ==> images.value == ImageList(files, LinkImages(imageLinks).value)
  {
    var acc: seq<string> := [];
    if |files| > 0 {
      var i := 0;
      while i < |files|
        invariant 0 <= i <= |files|
        invariant |acc| == i
        invariant forall k :: 0 <= k < i ==> acc[k] == UploadPrefix + files[k]
      {
        acc := acc + [UploadPrefix + files[i]];
        i := i + 1;
      }
    }
    var links: seq<string> := [];
    if imageLinks.Str? && imageLinks.s != "" {
      links := [Trim(imageLinks.s)];
      assert LinkImages(imageLinks) == Some(links);
    } else if imageLinks.Arr? {
      var trimmed := TrimLinks(imageLinks.items);
      if trimmed.None? {
        return None;
      }
      links := trimmed.value;
    } else {
      assert LinkImages(imageLinks) == Some([]);
    }
    assert LinkImages(imageLinks) == Some(links);
    acc := acc + links;
    assert acc == ImageList(files, links);
    images := Some(acc);
  }
}
