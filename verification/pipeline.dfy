/**
 * The "generate drafts" action: choose the batch (the manual form or the
 * simulated spreadsheet), build one draft per product, and save the batch
 * to the library when that is enabled.
 */
module Pipeline {
  import opened Basics
  import opened Text
  import opened Drafts
  import opened Library
  import opened Store

  /** The active input method. */
  datatype InputMethod = ManualEntry(form: ProductForm) | SpreadsheetMock

  /** The products of the action: the one checked form product, or the
      fixed spreadsheet list. */
  function Batch(input: InputMethod): (r: Result<seq<Product>>)
    ensures r.Err? <==> input.ManualEntry? && AllWs(input.form.name)
    ensures r.Ok? && input.ManualEntry? ==> |r.value| == 1 && WellFormed(r.value[0])
    ensures r.Ok? && input.ManualEntry? ==> r.value == [ManualInput(input.form).value]
    ensures input.SpreadsheetMock? ==> r == Ok(MockProducts)
  {
    match input
    case SpreadsheetMock => Ok(MockProducts)
    case ManualEntry(form) =>
      match ManualInput(form)
      case Err(message) => Err(message)
      case Ok(p) => Ok([p])
  }

  /** A rejected form produces no drafts and writes nothing. Otherwise
      there is one draft per product, and only the library key may
      change: it grows by the batch when saving is enabled. */
  method Generate(st: Storage, input: InputMethod, mainImages: seq<string>, referenceImages: seq<string>,
                  referenceLink: string, ids: nat -> string, now: Timestamp, saveEnabled: bool)
    returns (drafts: Result<seq<Draft>>, st': Storage)
    ensures drafts.Err? <==> Batch(input).Err?
    ensures drafts.Err? ==> st' == st && drafts.message == NameRequired
    ensures drafts.Ok? ==> |drafts.value| == |Batch(input).value|
    ensures drafts.Ok? ==> forall i :: 0 <= i < |drafts.value| ==> drafts.value[i].product == Batch(input).value[i]
    ensures drafts.Ok? ==>
      drafts.value == GenerateDrafts(Batch(input).value, mainImages, referenceImages, referenceLink, ids, now)
    ensures st'.templates == st.templates && st'.tasks == st.tasks && st'.settings == st.settings
    ensures !saveEnabled ==> st' == st
    ensures drafts.Ok? && saveEnabled ==>
      |StoredLibrary(st')| == |StoredLibrary(st)| + |Batch(input).value|
      && StoredLibrary(st')[..|StoredLibrary(st)|] == StoredLibrary(st)
    ensures drafts.Ok? && saveEnabled ==> forall i :: 0 <= i < |Batch(input).value| ==>
      StoredLibrary(st')[|StoredLibrary(st)| + i] ==
        LibraryItem(now + i, Batch(input).value[i], OwnImage(mainImages, i), OwnImage(referenceImages, i), now)
  {
    var batch := Batch(input);
    if batch.Err? {
      return Err(batch.message), st;
    }
    var products := batch.value;
    drafts := Ok(GenerateDrafts(products, mainImages, referenceImages, referenceLink, ids, now));
    st' := st;
    if saveEnabled {
      st' := SaveBatch(st, products, mainImages, referenceImages, now);
    }
  }

  /** The saving step of the action: the batch goes to the end of the
      stored library, item `i` with id `now + i`, and no other key changes. */
  method SaveBatch(st: Storage, products: seq<Product>, mainImages: seq<string>,
                   referenceImages: seq<string>, now: Timestamp)
    returns (st': Storage)
    ensures st'.templates == st.templates && st'.tasks == st.tasks && st'.settings == st.settings
    ensures |StoredLibrary(st')| == |StoredLibrary(st)| + |products|
    ensures StoredLibrary(st')[..|StoredLibrary(st)|] == StoredLibrary(st)
    ensures forall i :: 0 <= i < |products| ==>
      StoredLibrary(st')[|StoredLibrary(st)| + i] ==
        LibraryItem(now + i, products[i], OwnImage(mainImages, i), OwnImage(referenceImages, i), now)
  {
    var library := SaveToLibrary(StoredLibrary(st), products, mainImages, referenceImages, true, now);
    st' := st.(library := Some(library));
  }
}
