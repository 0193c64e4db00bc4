/**
 * The template registry: favouriting a draft, the search and type filter
 * of the template list, deletion by id and import by concatenation.
 */
module Templates {
  import opened Basics
  import opened Text
  import opened Seqs
  import opened Drafts

  datatype TemplateContent = TemplateContent(title: string, slogans: seq<string>, imageUrl: string)

  /** `kind` is the stored `type` string; imported templates may carry any. */
  datatype Template = Template(
    id: string,
    name: string,
    kind: string,
    content: TemplateContent,
    tags: seq<string>,
    createdBy: string,
    createdAt: Timestamp)

  const NameLength: nat := 20
  const Ellipsis: string := "..."
  const CompleteKind: string := "complete"
  const NoBrand: string := "无品牌"
  const SystemAuthor: string := "system"

  /** `title.substring(0, 20) + '...'`: the ellipsis is added even to a
      short title. */
  function TemplateName(title: string): (r: string)
    ensures |r| <= NameLength + |Ellipsis|
    ensures |r| == (if |title| < NameLength then |title| else NameLength) + |Ellipsis|
    ensures r == title[..|r| - |Ellipsis|] + Ellipsis
  {
    Take(title, NameLength) + Ellipsis
  }

  /** The two tags: the first `>`-segment of the category, trimmed, and
      the brand or the no-brand word. */
  function TemplateTags(p: Product): (r: seq<string>)
    ensures |r| == 2
    ensures IsTrimmed(r[0]) && CategorySeparator !in r[0]
    ensures IsTrimOf(r[0], FirstSegment(p.category, CategorySeparator))
    ensures r[1] != ""
    ensures p.brand != "" ==> r[1] == p.brand
    ensures p.brand == "" ==> r[1] == NoBrand
  {
    var head := FirstSegment(p.category, CategorySeparator);
    TrimKeepsAbsent(head, CategorySeparator);
    [Trim(head), if p.brand != "" then p.brand else NoBrand]
  }

  /** The template a favourited draft becomes. */
  function FromDraft(d: Draft, id: string, now: Timestamp): (t: Template)
    ensures t.id == id && t.createdAt == now
    ensures t.kind == CompleteKind && t.createdBy == SystemAuthor
    ensures t.content == TemplateContent(d.title, d.slogans, d.mainImage)
    ensures t.name == TemplateName(d.title) && |t.name| <= 23
    ensures t.tags == TemplateTags(d.product)
  {
    Template(id, TemplateName(d.title), CompleteKind,
             TemplateContent(d.title, d.slogans, d.mainImage),
             TemplateTags(d.product), SystemAuthor, now)
  }

  function TemplateId(t: Template): string {
    t.id
  }

  /** Favouriting appends the new template and leaves the others as they
      were; a fresh id keeps ids unique. */
  function SaveToTemplate(templates: seq<Template>, d: Draft, id: string, now: Timestamp): (r: seq<Template>)
    ensures |r| == |templates| + 1
    ensures r[..|templates|] == templates
    ensures r[|templates|] == FromDraft(d, id, now)
    ensures DistinctKeys(templates, TemplateId) && (forall k :: 0 <= k < |templates| ==> templates[k].id != id)
            ==> DistinctKeys(r, TemplateId)
  {
    var r := templates + [FromDraft(d, id, now)];
    assert DistinctKeys(templates, TemplateId) && (forall k :: 0 <= k < |templates| ==> templates[k].id != id)
           ==> DistinctKeys(r, TemplateId) by {
      if DistinctKeys(templates, TemplateId) && (forall k :: 0 <= k < |templates| ==> templates[k].id != id) {
        AppendKeepsDistinct(templates, FromDraft(d, id, now), TemplateId);
      }
    }
    r
  }

  /** Some tag, lower-cased, contains the (lower-cased) search term. */
  predicate SomeTagContains(tags: seq<string>, term: string) {
    exists k | 0 <= k < |tags| :: Contains(Lower(tags[k]), term)
  }

  /** The template list's filter for an already lower-cased search term. */
  predicate Shown(t: Template, term: string, kind: string) {
    && (Contains(Lower(t.name), term) || SomeTagContains(t.tags, term))
    && (kind == ShowAll || t.kind == kind)
  }

  /** The templates the list shows for a search box value and a type
      filter: exactly the matching ones, in stored order; an empty search
      with "all" shows everything. */
  function QueryTemplates(templates: seq<Template>, search: string, kind: string): (r: seq<Template>)
    ensures forall t :: t in r <==> t in templates && Shown(t, Lower(search), kind)
    ensures IsSubsequence(r, templates)
    ensures forall t :: multiset(r)[t] == if Shown(t, Lower(search), kind) then multiset(templates)[t] else 0
    ensures search == "" && kind == ShowAll ==> r == templates
  {
    var term := Lower(search);
    var keep := (t: Template) => Shown(t, term, kind);
    FilterIsSubsequence(templates, keep);
    FilterMultiset(templates, keep);
    assert search == "" && kind == ShowAll ==> forall i :: 0 <= i < |templates| ==> keep(templates[i]) by {
      if search == "" {
        assert term == "";
        forall i | 0 <= i < |templates| ensures Contains(Lower(templates[i].name), "") {
          ContainsEmpty(Lower(templates[i].name));
        }
      }
    }
    Filter(templates, keep)
  }

  /** `templates.find(t => t.id === id)`: the first template with the id. */
  function FindTemplate(templates: seq<Template>, id: string): (r: Option<Template>)
    ensures r.Some? ==> exists j | 0 <= j < |templates| :: IsFirstWithKey(templates, TemplateId, id, j) && templates[j] == r.value
    ensures r.None? <==> forall k :: 0 <= k < |templates| ==> templates[k].id != id
  {
    if templates == [] then None
    else if templates[0].id == id then
      assert IsFirstWithKey(templates, TemplateId, id, 0);
      Some(templates[0])
    else
      var r := FindTemplate(templates[1..], id);
      assert r.Some? ==> exists j | 0 <= j < |templates| :: IsFirstWithKey(templates, TemplateId, id, j) && templates[j] == r.value by {
        if r.Some? {
          var j :| 0 <= j < |templates[1..]| && IsFirstWithKey(templates[1..], TemplateId, id, j) && templates[1..][j] == r.value;
          assert IsFirstWithKey(templates, TemplateId, id, j + 1);
        }
      }
      r
  }

  /** The test `t.id !== id` that delete filters by. */
  function OtherId(id: string): Template -> bool {
    (t: Template) => t.id != id
  }

  /** Deleting keeps exactly the templates with another id, in order; the
      id is then gone, and an absent id changes nothing. */
  function DeleteTemplate(templates: seq<Template>, id: string): (r: seq<Template>)
    ensures forall t :: t in r <==> t in templates && t.id != id
    ensures forall t :: multiset(r)[t] == if t.id != id then multiset(templates)[t] else 0
    ensures IsSubsequence(r, templates)
    ensures FindTemplate(r, id) == None
    ensures FindTemplate(templates, id) == None ==> r == templates
    ensures DistinctKeys(templates, TemplateId) ==> DistinctKeys(r, TemplateId)
  {
    DeleteKeepsOthers(templates, id);
    DeleteRemovesId(templates, id);
    Filter(templates, OtherId(id))
  }

  /** The filter keeps the other-id templates in order and with their
      multiplicities, and keeps ids unique. */
  lemma DeleteKeepsOthers(templates: seq<Template>, id: string)
    ensures forall t :: multiset(Filter(templates, OtherId(id)))[t] ==
                        if t.id != id then multiset(templates)[t] else 0
    ensures IsSubsequence(Filter(templates, OtherId(id)), templates)
    ensures DistinctKeys(templates, TemplateId) ==> DistinctKeys(Filter(templates, OtherId(id)), TemplateId)
  {
    FilterIsSubsequence(templates, OtherId(id));
    FilterMultiset(templates, OtherId(id));
    if DistinctKeys(templates, TemplateId) {
      FilterKeepsDistinct(templates, OtherId(id), TemplateId);
    }
  }

  /** After the filter the id cannot be found, and when it could not be
      found before the filter keeps everything. */
  lemma DeleteRemovesId(templates: seq<Template>, id: string)
    ensures FindTemplate(Filter(templates, OtherId(id)), id) == None
    ensures FindTemplate(templates, id) == None ==> Filter(templates, OtherId(id)) == templates
  {
    var r := Filter(templates, OtherId(id));
    forall k | 0 <= k < |r| ensures r[k].id != id {
      assert r[k] in r;
    }
  }

  /** Import appends the parsed templates after the stored ones, without
      removing duplicates; a file that does not parse leaves the store
      untouched. */
  function ImportTemplates(templates: seq<Template>, parsed: Result<seq<Template>>): (r: seq<Template>)
    ensures parsed.Err? ==> r == templates
    ensures parsed.Ok? ==> |r| == |templates| + |parsed.value|
    ensures |templates| <= |r| && r[..|templates|] == templates
    ensures parsed.Ok? ==> r[|templates|..] == parsed.value
    ensures parsed.Ok? ==> multiset(r) == multiset(templates) + multiset(parsed.value)
  {
    match parsed
    case Err(_) => templates
    case Ok(imported) => templates + imported
  }

  /** Importing a template whose id is already stored yields two templates
      with that id. */
  lemma ImportKeepsDuplicateIds(templates: seq<Template>, imported: seq<Template>, i: nat, j: nat)
    requires i < |templates| && j < |imported| && templates[i].id == imported[j].id
    ensures !DistinctKeys(ImportTemplates(templates, Ok(imported)), TemplateId)
  {
  }
}
