/**
 * Draft synthesis: the product record, the required-name check of the
 * manual form, title and slogan composition, the draft record and the
 * positional image assignment of a batch.
 */
module Drafts {
  import opened Basics
  import opened Text

  /** One product's attributes; an absent optional field is "". */
  datatype Product = Product(
    name: string,
    category: string,
    brand: string,
    material: string,
    size: string,
    color: string,
    audience: string)

  /** The raw values of the manual input form, before trimming. */
  datatype ProductForm = ProductForm(
    name: string,
    category: string,
    brand: string,
    material: string,
    size: string,
    color: string,
    audience: string)

  /** A synthesized listing for one product. */
  datatype Draft = Draft(
    id: string,
    product: Product,
    mainImage: string,
    referenceImage: Option<string>,
    referenceLink: string,
    title: string,
    slogans: seq<string>,
    generatedAt: Timestamp)

  const NameRequired: string := "请输入商品名称"
  const CategorySeparator: char := '>'

  /** Every field of the product is free of surrounding whitespace and the
      name is present: what the manual form produces. */
  predicate WellFormed(p: Product) {
    && p.name != [] && IsTrimmed(p.name)
    && IsTrimmed(p.category) && IsTrimmed(p.brand) && IsTrimmed(p.material)
    && IsTrimmed(p.size) && IsTrimmed(p.color) && IsTrimmed(p.audience)
  }

  /** The manual form's check: the name is trimmed and rejected when
      nothing is left; every other field is trimmed and may be empty. */
  function ManualInput(form: ProductForm): (r: Result<Product>)
    ensures r.Ok? <==> !AllWs(form.name)
    ensures r.Err? ==> r.message == NameRequired
    ensures r.Ok? ==> WellFormed(r.value)
    ensures r.Ok? ==> r.value.name == Trim(form.name) && r.value.brand == Trim(form.brand)
                      && r.value.category == Trim(form.category) && r.value.material == Trim(form.material)
                      && r.value.size == Trim(form.size) && r.value.color == Trim(form.color)
                      && r.value.audience == Trim(form.audience)
  {
    var name := Trim(form.name);
    if name == "" then Err(NameRequired)
    else Ok(Product(name, Trim(form.category), Trim(form.brand), Trim(form.material),
                    Trim(form.size), Trim(form.color), Trim(form.audience)))
  }

  /** The title's category word: the last `>`-separated segment, trimmed. */
  function CategoryTail(category: string): (r: string)
    ensures IsTrimmed(r) && CategorySeparator !in r
    ensures IsTrimOf(r, LastSegment(category, CategorySeparator))
  {
    var last := LastSegment(category, CategorySeparator);
    TrimKeepsAbsent(last, CategorySeparator);
    Trim(last)
  }

  /** The title pieces: each optional field brings its own separating
      space, an absent field brings nothing. */
  function BrandPiece(p: Product): string {
    if p.brand != "" then p.brand + " " else ""
  }

  function WordPiece(v: string): string {
    if v != "" then " " + v else ""
  }

  function CategoryPiece(p: Product): string {
    if p.category != "" then " " + CategoryTail(p.category) else ""
  }

  /** The raw title: the five pieces joined with nothing in between. */
  function RawTitle(p: Product): string {
    BrandPiece(p) + p.name + (WordPiece(p.material) + WordPiece(p.color) + CategoryPiece(p))
  }

  /** The generated title. Whatever the fields hold, a trimmed non-empty
      name appears in it. */
  function Title(p: Product): (r: string)
    ensures IsTrimmed(r)
    ensures p.name != "" && IsTrimmed(p.name) ==> Contains(r, p.name)
  {
    assert p.name != "" && IsTrimmed(p.name) ==> Contains(Trim(RawTitle(p)), p.name) by {
      if p.name != "" && IsTrimmed(p.name) {
        NameInRawTitle(p);
      }
    }
    Trim(RawTitle(p))
  }

  /** The name sits right after the brand piece of the raw title, so it
      survives the final trim. */
  lemma NameInRawTitle(p: Product)
    requires p.name != "" && IsTrimmed(p.name)
    ensures Contains(Trim(RawTitle(p)), p.name)
  {
    OccursBetween(BrandPiece(p), p.name, WordPiece(p.material) + WordPiece(p.color) + CategoryPiece(p));
    TrimKeepsInfix(RawTitle(p), p.name, |BrandPiece(p)|);
  }

  /** Two words separated by one space, where an empty word takes no room. */
  function Spaced(a: string, b: string): string {
    if a == "" then b else if b == "" then a else a + " " + b
  }

  lemma SpacedTrimmed(a: string, b: string)
    requires IsTrimmed(a) && IsTrimmed(b)
    ensures IsTrimmed(Spaced(a, b))
    ensures a != "" ==> Spaced(a, b) != ""
  {
    if a != "" && b != "" {
      var s := a + " " + b;
      assert s[0] == a[0] && s[|s| - 1] == b[|b| - 1];
    }
  }

  /** The present fields in title order, separated by single spaces. */
  function PresentWords(p: Product): string {
    Spaced(Spaced(Spaced(Spaced(p.brand, p.name), p.material), p.color), CategoryTail(p.category))
  }

  /** Appending an optional word with its leading space is `Spaced`. */
  lemma AppendWord(x: string, v: string)
    requires x != ""
    ensures x + WordPiece(v) == Spaced(x, v)
  {
    if v == "" {
      assert x + "" == x;
    }
  }

  /** For a product from the manual form, the title is exactly brand, name,
      material, colour and category tail, the absent ones left out and the
      rest separated by one space each. */
  lemma TitleJoinsPresentFields(p: Product)
    requires WellFormed(p)
    ensures Title(p) == PresentWords(p)
  {
    var x1 := Spaced(p.brand, p.name);
    SpacedTrimmed(p.brand, p.name);
    var x2 := Spaced(x1, p.material);
    SpacedTrimmed(x1, p.material);
    var x3 := Spaced(x2, p.color);
    SpacedTrimmed(x2, p.color);
    var tail := CategoryTail(p.category);
    SpacedTrimmed(x3, tail);
    RawTitleIsSpaced(p);
    if p.category != "" && tail == "" {
      TrimDropsTrailingSpace(x3);
    }
  }

  /** The raw title is the spaced words, plus one trailing space when the
      category's last segment is blank. */
  lemma RawTitleIsSpaced(p: Product)
    requires p.name != ""
    ensures var x3 := Spaced(Spaced(Spaced(p.brand, p.name), p.material), p.color);
            var tail := CategoryTail(p.category);
            RawTitle(p) == if p.category != "" && tail == "" then x3 + " " else Spaced(x3, tail)
  {
    var x1 := Spaced(p.brand, p.name);
    var x2 := Spaced(x1, p.material);
    var x3 := Spaced(x2, p.color);
    var m := WordPiece(p.material);
    var c := WordPiece(p.color);
    var k := CategoryPiece(p);
    assert BrandPiece(p) + p.name == x1;
    AppendWord(x1, p.material);
    AppendWord(x2, p.color);
    Regroup(x1, m, c, k);
    if p.category == "" {
      assert LastSegment("", CategorySeparator) == "";
      AppendWord(x3, "");
    } else {
      AppendWord(x3, CategoryTail(p.category));
    }
  }

  lemma Regroup(a: string, b: string, c: string, d: string)
    ensures a + (b + c + d) == a + b + c + d
  {
  }

  /** A product without category: brand, name, material and colour. */
  lemma ShoeTitle()
    ensures Title(Product("男士商务休闲皮鞋", "", "商务大师", "头层牛皮", "", "黑色", ""))
            == "商务大师 男士商务休闲皮鞋 头层牛皮 黑色"
  {
    var p := Product("男士商务休闲皮鞋", "", "商务大师", "头层牛皮", "", "黑色", "");
    assert WellFormed(p) by {
      assert !IsWs('男') && !IsWs('鞋') && !IsWs('商') && !IsWs('师');
      assert !IsWs('头') && !IsWs('皮') && !IsWs('黑') && !IsWs('色');
    }
    TitleJoinsPresentFields(p);
    assert CategoryTail("") == "" by {
      assert LastSegment("", CategorySeparator) == "";
    }
    assert PresentWords(p) == "商务大师" + " " + "男士商务休闲皮鞋" + " " + "头层牛皮" + " " + "黑色";
    ShoeWords();
  }

  lemma ShoeWords()
    ensures "商务大师" + " " + "男士商务休闲皮鞋" + " " + "头层牛皮" + " " + "黑色"
            == "商务大师 男士商务休闲皮鞋 头层牛皮 黑色"
  {
  }

  /** The first product of the spreadsheet batch: its category's last
      segment, trimmed, closes the title. */
  lemma MockShoeTitle()
    ensures Title(MockProducts[0]) == "商务大师 男士商务休闲皮鞋 头层牛皮 黑色 皮鞋"
  {
    var p := MockProducts[0];
    assert WellFormed(p) by {
      assert !IsWs('男') && !IsWs('鞋') && !IsWs('商') && !IsWs('师');
      assert !IsWs('头') && !IsWs('皮') && !IsWs('黑') && !IsWs('色');
      assert !IsWs('3') && !IsWs('4') && !IsWs('士');
    }
    TitleJoinsPresentFields(p);
    ShoeCategoryTail();
    var x1 := Spaced(p.brand, p.name);
    assert x1 == "商务大师" + " " + "男士商务休闲皮鞋";
    var x2 := Spaced(x1, p.material);
    assert x2 == x1 + " " + "头层牛皮";
    var x3 := Spaced(x2, p.color);
    assert x3 == x2 + " " + "黑色";
    assert PresentWords(p) == x3 + " " + "皮鞋";
    MockShoeWords();
  }

  lemma MockShoeWords()
    ensures "商务大师" + " " + "男士商务休闲皮鞋" + " " + "头层牛皮" + " " + "黑色" + " " + "皮鞋"
            == "商务大师 男士商务休闲皮鞋 头层牛皮 黑色 皮鞋"
  {
  }

  /** `"鞋靴 > 皮鞋"` ends in the category word `"皮鞋"`. */
  lemma ShoeCategoryTail()
    ensures CategoryTail("鞋靴 > 皮鞋") == "皮鞋"
  {
    ShoeLastSegment();
    ShoeTrim();
  }

  /** The part after the last `>` keeps its leading space. */
  lemma ShoeLastSegment()
    ensures LastSegment("鞋靴 > 皮鞋", '>') == " 皮鞋"
  {
  }

  /** Trimming drops that space. */
  lemma ShoeTrim()
    ensures Trim(" 皮鞋") == "皮鞋"
  {
  }

  const Fallback: string := "优质工艺，细节彰显品质"

  /** The optional fields slogans are drawn from, in priority order. */
  function SloganFields(p: Product): seq<string> {
    [p.brand, p.material, p.color, p.audience]
  }

  /** The slogan the field at priority `i` contributes. */
  function SloganFor(i: nat, v: string): string {
    if i == 0 then v + "品牌保证，品质值得信赖"
    else if i == 1 then "精选优质" + v + "，舒适耐用"
    else if i == 2 then v + "经典配色，时尚百搭"
    else "专为" + v + "设计，贴合需求"
  }

  /** The candidate slogans in the order they are pushed. */
  function Candidates(p: Product): seq<string> {
    Pushed(0, p.brand) + Pushed(1, p.material) + Pushed(2, p.color) + Pushed(3, p.audience)
  }

  /** What the field at priority `i` pushes: its slogan when present. */
  function Pushed(i: nat, v: string): seq<string> {
    if v != "" then [SloganFor(i, v)] else []
  }

  /** Which candidates exist, read off the present fields. */
  lemma CandidatesByPriority(p: Product)
    ensures (forall k :: 0 <= k < 4 ==> SloganFields(p)[k] == "") ==> Candidates(p) == []
    ensures forall i :: 0 <= i < 4 && SloganFields(p)[i] != ""
                        && (forall k :: 0 <= k < 4 && k != i ==> SloganFields(p)[k] == "")
                        ==> Candidates(p) == [SloganFor(i, SloganFields(p)[i])]
    ensures forall i, j :: 0 <= i < j < 4 && SloganFields(p)[i] != "" && SloganFields(p)[j] != ""
                           && (forall k :: 0 <= k < j && k != i ==> SloganFields(p)[k] == "")
                           ==> |Candidates(p)| >= 2 && Candidates(p)[..2] ==
                               [SloganFor(i, SloganFields(p)[i]), SloganFor(j, SloganFields(p)[j])]
  {
    NoCandidate(p);
    EachOneCandidate(p);
    EachTwoCandidates(p);
  }

  lemma NoCandidate(p: Product)
    ensures (forall k :: 0 <= k < 4 ==> SloganFields(p)[k] == "") ==> Candidates(p) == []
  {
    var f := SloganFields(p);
    if forall k :: 0 <= k < 4 ==> f[k] == "" {
      assert f[0] == "" && f[1] == "" && f[2] == "" && f[3] == "";
    }
  }

  lemma EachOneCandidate(p: Product)
    ensures forall i :: 0 <= i < 4 && SloganFields(p)[i] != ""
                        && (forall k :: 0 <= k < 4 && k != i ==> SloganFields(p)[k] == "")
                        ==> Candidates(p) == [SloganFor(i, SloganFields(p)[i])]
  {
    var f := SloganFields(p);
    forall i | 0 <= i < 4 && f[i] != "" && (forall k :: 0 <= k < 4 && k != i ==> f[k] == "")
      ensures Candidates(p) == [SloganFor(i, f[i])]
    {
      OneCandidate(p, i);
    }
  }

  lemma EachTwoCandidates(p: Product)
    ensures forall i, j :: 0 <= i < j < 4 && SloganFields(p)[i] != "" && SloganFields(p)[j] != ""
                           && (forall k :: 0 <= k < j && k != i ==> SloganFields(p)[k] == "")
                           ==> |Candidates(p)| >= 2 && Candidates(p)[..2] ==
                               [SloganFor(i, SloganFields(p)[i]), SloganFor(j, SloganFields(p)[j])]
  {
    var f := SloganFields(p);
    forall i, j | 0 <= i < j < 4 && f[i] != "" && f[j] != "" && (forall k :: 0 <= k < j && k != i ==> f[k] == "")
      ensures |Candidates(p)| >= 2 && Candidates(p)[..2] == [SloganFor(i, f[i]), SloganFor(j, f[j])]
    {
      TwoCandidates(p, i, j);
    }
  }

  lemma OneCandidate(p: Product, i: nat)
    requires i < 4 && SloganFields(p)[i] != ""
    requires forall k :: 0 <= k < 4 && k != i ==> SloganFields(p)[k] == ""
    ensures Candidates(p) == [SloganFor(i, SloganFields(p)[i])]
  {
    var f := SloganFields(p);
    assert i == 0 || f[0] == "";
    assert i == 1 || f[1] == "";
    assert i == 2 || f[2] == "";
    assert i == 3 || f[3] == "";
  }

  lemma TwoCandidates(p: Product, i: nat, j: nat)
    requires i < j < 4 && SloganFields(p)[i] != "" && SloganFields(p)[j] != ""
    requires forall k :: 0 <= k < j && k != i ==> SloganFields(p)[k] == ""
    ensures |Candidates(p)| >= 2
    ensures Candidates(p)[..2] == [SloganFor(i, SloganFields(p)[i]), SloganFor(j, SloganFields(p)[j])]
  {
    var f := SloganFields(p);
    var b, m, c, a := Pushed(0, p.brand), Pushed(1, p.material), Pushed(2, p.color), Pushed(3, p.audience);
    assert Candidates(p) == b + m + c + a;
    if i == 0 && j == 1 {
      assert b + m == [SloganFor(0, p.brand), SloganFor(1, p.material)];
    } else if i == 0 && j == 2 {
      assert f[1] == "" && m == [];
      assert b + m + c == [SloganFor(0, p.brand), SloganFor(2, p.color)];
    } else if i == 0 {
      assert f[1] == "" && f[2] == "" && m == [] && c == [];
      assert b + m + c + a == [SloganFor(0, p.brand), SloganFor(3, p.audience)];
    } else if i == 1 && j == 2 {
      assert f[0] == "" && b == [];
      assert b + m + c == [SloganFor(1, p.material), SloganFor(2, p.color)];
    } else if i == 1 {
      assert f[0] == "" && f[2] == "" && b == [] && c == [];
      assert b + m + c + a == [SloganFor(1, p.material), SloganFor(3, p.audience)];
    } else {
      assert f[0] == "" && f[1] == "" && b == [] && m == [];
      assert b + m + c + a == [SloganFor(2, p.color), SloganFor(3, p.audience)];
    }
  }

  /** The generated slogans: one or two; the fallback alone when no field
      is present; the one present field's slogan then the fallback; or the
      slogans of the two highest-priority present fields. */
  function Slogans(p: Product): (r: seq<string>)
    ensures 1 <= |r| <= 2
    ensures (forall k :: 0 <= k < 4 ==> SloganFields(p)[k] == "") ==> r == [Fallback]
    ensures forall i :: 0 <= i < 4 && SloganFields(p)[i] != ""
                        && (forall k :: 0 <= k < 4 && k != i ==> SloganFields(p)[k] == "")
                        ==> r == [SloganFor(i, SloganFields(p)[i]), Fallback]
    ensures forall i, j :: 0 <= i < j < 4 && SloganFields(p)[i] != "" && SloganFields(p)[j] != ""
                           && (forall k :: 0 <= k < j && k != i ==> SloganFields(p)[k] == "")
                           ==> r == [SloganFor(i, SloganFields(p)[i]), SloganFor(j, SloganFields(p)[j])]
  {
    var c := Candidates(p);
    CandidatesByPriority(p);
    var all := if |c| < 2 then c + [Fallback] else c;
    if |all| <= 2 then all else all[..2]
  }

  const Placeholder: string :=
    "https://via.placeholder.com/350x250?prompt=product%20main%20image%20white%20background&image_size=square"

  /** `images[i] || images[0] || fallback` for a list of image URLs. */
  function PickImage(images: seq<string>, i: nat): (r: Option<string>)
    ensures i < |images| && images[i] != "" ==> r == Some(images[i])
    ensures !(i < |images| && images[i] != "") && |images| > 0 && images[0] != "" ==> r == Some(images[0])
    ensures r.None? <==> !(i < |images| && images[i] != "") && !(|images| > 0 && images[0] != "")
  {
    if i < |images| && images[i] != "" then Some(images[i])
    else if |images| > 0 && images[0] != "" then Some(images[0])
    else None
  }

  /** The main image of product `i`: its own, else the first, else the
      placeholder; never empty. */
  function MainImageFor(images: seq<string>, i: nat): (r: string)
    ensures r != ""
    ensures r == Placeholder || r in images
    ensures i < |images| && images[i] != "" ==> r == images[i]
    ensures !(i < |images| && images[i] != "") && |images| > 0 && images[0] != "" ==> r == images[0]
    ensures !(i < |images| && images[i] != "") && !(|images| > 0 && images[0] != "") ==> r == Placeholder
  {
    PickImage(images, i).GetOr(Placeholder)
  }

  /** The reference image of product `i`: its own, else the first, else null. */
  function ReferenceImageFor(images: seq<string>, i: nat): (r: Option<string>)
    ensures r.Some? ==> r.value != "" && r.value in images
    ensures r.None? <==> forall k :: 0 <= k < |images| && (k == i || k == 0) ==> images[k] == ""
    ensures i < |images| && images[i] != "" ==> r == Some(images[i])
    ensures !(i < |images| && images[i] != "") && |images| > 0 && images[0] != "" ==> r == Some(images[0])
  {
    PickImage(images, i)
  }

  /** One product's draft: the product, images and link as given, the
      synthesized title and slogans, the given id and time. */
  function ProductDraft(p: Product, mainImage: string, referenceImage: Option<string>,
                        referenceLink: string, id: string, now: Timestamp): (d: Draft)
    ensures d.product == p && d.id == id && d.generatedAt == now
    ensures d.mainImage == mainImage && d.referenceImage == referenceImage
    ensures d.referenceLink == referenceLink
    ensures d.title == Title(p) && d.slogans == Slogans(p)
    ensures 1 <= |d.slogans| <= 2
    ensures WellFormed(p) ==> Contains(d.title, p.name)
  {
    Draft(id, p, mainImage, referenceImage, referenceLink, Title(p), Slogans(p), now)
  }

  /** `products.map(...)` of a batch: one draft per product, in product
      order; product `i` gets main image `i`, else main image 0, else the
      placeholder, and reference image `i`, else reference image 0, else
      none. `ids(i)` is the id the clock and random source give draft `i`. */
  function GenerateDrafts(products: seq<Product>, mainImages: seq<string>, referenceImages: seq<string>,
                          referenceLink: string, ids: nat -> string, now: Timestamp): (drafts: seq<Draft>)
    ensures |drafts| == |products|
    ensures forall i :: 0 <= i < |products| ==>
      && drafts[i].product == products[i]
      && drafts[i].id == ids(i)
      && drafts[i].referenceLink == referenceLink
      && drafts[i].generatedAt == now
      && drafts[i].title == Title(products[i])
      && drafts[i].slogans == Slogans(products[i])
    ensures forall i :: 0 <= i < |products| && i < |mainImages| && mainImages[i] != "" ==>
      drafts[i].mainImage == mainImages[i]
    ensures forall i :: 0 <= i < |products| && !(i < |mainImages| && mainImages[i] != "") ==>
      drafts[i].mainImage == if |mainImages| > 0 && mainImages[0] != "" then mainImages[0] else Placeholder
    ensures forall i :: 0 <= i < |products| && i < |referenceImages| && referenceImages[i] != "" ==>
      drafts[i].referenceImage == Some(referenceImages[i])
    ensures forall i :: 0 <= i < |products| && !(i < |referenceImages| && referenceImages[i] != "") ==>
      drafts[i].referenceImage ==
        if |referenceImages| > 0 && referenceImages[0] != "" then Some(referenceImages[0]) else None
  {
    var drafts := seq(|products|, k requires 0 <= k < |products| =>
      ProductDraft(products[k], MainImageFor(mainImages, k), ReferenceImageFor(referenceImages, k),
                   referenceLink, ids(k), now));
    assert forall i :: 0 <= i < |products| ==>
      drafts[i] == ProductDraft(products[i], MainImageFor(mainImages, i), ReferenceImageFor(referenceImages, i),
                                referenceLink, ids(i), now);
    drafts
  }

  /** The fixed product list the simulated spreadsheet import yields. */
  const MockProducts: seq<Product> := [
    Product("男士商务休闲皮鞋", "鞋靴 > 皮鞋", "商务大师", "头层牛皮", "38-44", "黑色", "商务人士"),
    Product("女士纯棉T恤", "服装 > T恤", "纯棉生活", "100%棉", "S-XL", "白色", "女性"),
    Product("儿童益智积木", "玩具 > 积木", "智慧童年", "环保塑料", "200pcs", "多彩", "3-6岁儿童")
  ]
}
