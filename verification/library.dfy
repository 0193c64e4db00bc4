/**
 * The material library: products saved together with their own images
 * when a batch of drafts is generated with "save to library" ticked.
 */
module Library {
  import opened Basics
  import opened Seqs
  import opened Drafts

  datatype LibraryItem = LibraryItem(
    id: int,
    product: Product,
    mainImage: Option<string>,
    referenceImage: Option<string>,
    savedAt: Timestamp)

  /** `images[i] || null`: unlike a draft, a library item gets only the
      product's own image, with no fall-back to the first one. */
  function OwnImage(images: seq<string>, i: nat): (r: Option<string>)
    ensures r.Some? <==> i < |images| && images[i] != ""
    ensures r.Some? ==> r.value == images[i]
  {
    if i < |images| && images[i] != "" then Some(images[i]) else None
  }

  function ItemId(item: LibraryItem): int {
    item.id
  }

  /** Saves the batch when enabled: one item per product appended in
      product order, item `i` getting id `now + i`; otherwise the library
      is left as it is. Ids stay unique when every stored id is below `now`. */
  method SaveToLibrary(library: seq<LibraryItem>, products: seq<Product>, mainImages: seq<string>,
                       referenceImages: seq<string>, enabled: bool, now: Timestamp)
    returns (r: seq<LibraryItem>)
    ensures !enabled ==> r == library
    ensures enabled ==> |r| == |library| + |products|
    ensures |library| <= |r| && r[..|library|] == library
    ensures enabled ==> forall i :: 0 <= i < |products| ==>
      r[|library| + i] == LibraryItem(now + i, products[i], OwnImage(mainImages, i),
                                      OwnImage(referenceImages, i), now)
    ensures DistinctKeys(library, ItemId) && (forall k :: 0 <= k < |library| ==> library[k].id < now)
            ==> DistinctKeys(r, ItemId)
  {
    r := library;
    if !enabled {
      return;
    }
    var i := 0;
    while i < |products|
      invariant 0 <= i <= |products|
      invariant |r| == |library| + i
      invariant r[..|library|] == library
      invariant forall k :: 0 <= k < i ==>
        r[|library| + k] == LibraryItem(now + k, products[k], OwnImage(mainImages, k),
                                        OwnImage(referenceImages, k), now)
      invariant DistinctKeys(library, ItemId) && (forall k :: 0 <= k < |library| ==> library[k].id < now)
                ==> DistinctKeys(r, ItemId) && (forall k :: 0 <= k < |r| ==> r[k].id < now + i)
    {
      var item := LibraryItem(now + i, products[i], OwnImage(mainImages, i), OwnImage(referenceImages, i), now);
      r := r + [item];
      i := i + 1;
    }
  }
}
