/** `TagService`: global tags, shared by name, and the links between
    templates and tags, kept in the order they were saved. */
module Tags {
  import opened Common
  import opened Domain

  // ---------------------------------------------------------------------
  // The tables

  /** The tag table: a tag's id is its position, and no name is stored
      twice (tag names are global). */
  predicate TagTable(tags: seq<Tag>) {
    && (forall i :: 0 <= i < |tags| ==> tags[i].id == i)
    && (forall i, j :: 0 <= i < j < |tags| ==> tags[i].name != tags[j].name)
  }

  /** Every link names a stored tag. */
  predicate LinksReferTo(tags: seq<Tag>, links: seq<TemplateTag>) {
    forall l :: l in links ==> l.tagId < |tags|
  }

  /** `tagRepository.findByName`: the position of the tag with that name. */
  function FindByName(tags: seq<Tag>, name: string): (r: Option<nat>)
    ensures r.Some? ==> r.value < |tags| && tags[r.value].name == name
    ensures r.None? ==> forall i :: 0 <= i < |tags| ==> tags[i].name != name
  {
    if tags == [] then None
    else if tags[|tags| - 1].name == name then Some(|tags| - 1)
    else FindByName(tags[..|tags| - 1], name)
  }

  /** `templateTagRepository.findAllByTemplate`: the links of one template,
      in the order they were saved. The contract states membership; the
      order is given by the definition. */
  function LinksOf(links: seq<TemplateTag>, templateId: int): (r: seq<TemplateTag>)
    ensures forall l :: l in r <==> l in links && l.templateId == templateId
  {
    if links == [] then []
    else
      var l := links[|links| - 1];
      LinksOf(links[..|links| - 1], templateId) + if l.templateId == templateId then [l] else []
  }

  lemma LinksOfAppend(links: seq<TemplateTag>, l: TemplateTag, templateId: int)
    ensures LinksOf(links + [l], templateId) == LinksOf(links, templateId) + if l.templateId == templateId then [l] else []
  {
    assert (links + [l])[..|links|] == links;
  }

  /** The tags of one template, in the order its links were saved. */
  function TagsOfTemplate(tags: seq<Tag>, links: seq<TemplateTag>, templateId: int): seq<Tag>
    requires LinksReferTo(tags, links)
  {
    if links == [] then []
    else
      var l := links[|links| - 1];
      assert l in links;
      TagsOfTemplate(tags, links[..|links| - 1], templateId) + if l.templateId == templateId then [tags[l.tagId]] else []
  }

  /** The k-th tag of a template is the tag its k-th link names. */
  lemma {:induction false} TagsOfTemplateAt(tags: seq<Tag>, links: seq<TemplateTag>, templateId: int)
    requires LinksReferTo(tags, links)
    ensures |TagsOfTemplate(tags, links, templateId)| == |LinksOf(links, templateId)|
    ensures forall k :: 0 <= k < |LinksOf(links, templateId)| ==>
              TagsOfTemplate(tags, links, templateId)[k] == tags[LinksOf(links, templateId)[k].tagId]
  {
    if links != [] {
      var l := links[|links| - 1];
      var init := links[..|links| - 1];
      assert links == init + [l];
      LinksOfAppend(init, l, templateId);
      TagsOfTemplateAt(tags, init, templateId);
    }
  }

  /** The names of a list of tags. */
  function Names(ts: seq<Tag>): seq<string> {
    if ts == [] then [] else Names(ts[..|ts| - 1]) + [ts[|ts| - 1].name]
  }

  lemma {:induction false} NamesAt(ts: seq<Tag>)
    ensures |Names(ts)| == |ts| && forall k :: 0 <= k < |ts| ==> Names(ts)[k] == ts[k].name
  {
    if ts != [] {
      NamesAt(ts[..|ts| - 1]);
    }
  }

  /** The names of a template's tags, in link order: what the tests read
      back after each update. */
  function LinkedNames(tags: seq<Tag>, links: seq<TemplateTag>, templateId: int): seq<string>
    requires LinksReferTo(tags, links)
  {
    Names(TagsOfTemplate(tags, links, templateId))
  }

  lemma LinkedNamesAppend(tags: seq<Tag>, links: seq<TemplateTag>, l: TemplateTag, templateId: int)
    requires LinksReferTo(tags, links + [l])
    ensures LinkedNames(tags, links + [l], templateId)
         == LinkedNames(tags, links, templateId) + if l.templateId == templateId then [tags[l.tagId].name] else []
  {
    assert (links + [l])[..|links|] == links;
    var ts := TagsOfTemplate(tags, links, templateId);
    assert LinksReferTo(tags, links);
    assert TagsOfTemplate(tags, links + [l], templateId) == ts + if l.templateId == templateId then [tags[l.tagId]] else [];
    if l.templateId == templateId {
      assert (ts + [tags[l.tagId]])[..|ts|] == ts;
      assert Names(ts + [tags[l.tagId]]) == Names(ts) + [tags[l.tagId].name];
    } else {
      assert ts + [] == ts;
    }
  }

  /** Saving a new tag does not change what any existing link names. */
  lemma LinkedNamesNewTag(tags: seq<Tag>, t: Tag, links: seq<TemplateTag>, templateId: int)
    requires LinksReferTo(tags, links)
    ensures LinkedNames(tags + [t], links, templateId) == LinkedNames(tags, links, templateId)
  {
    TagsOfTemplateNewTag(tags, t, links, templateId);
  }

  lemma {:induction false} TagsOfTemplateNewTag(tags: seq<Tag>, t: Tag, links: seq<TemplateTag>, templateId: int)
    requires LinksReferTo(tags, links)
    ensures TagsOfTemplate(tags + [t], links, templateId) == TagsOfTemplate(tags, links, templateId)
  {
    if links != [] {
      var l := links[|links| - 1];
      assert l in links;
      TagsOfTemplateNewTag(tags, t, links[..|links| - 1], templateId);
    }
  }

  /** A tag's name is among a template's tag names exactly when the
      template is linked to that tag. */
  lemma {:induction false} LinkedNameIffLinked(tags: seq<Tag>, links: seq<TemplateTag>, templateId: int, id: nat)
    requires TagTable(tags) && LinksReferTo(tags, links) && id < |tags|
    ensures tags[id].name in LinkedNames(tags, links, templateId) <==> TemplateTag(templateId, id) in links
  {
    var ts := TagsOfTemplate(tags, links, templateId);
    var ls := LinksOf(links, templateId);
    TagsOfTemplateAt(tags, links, templateId);
    NamesAt(ts);
    if tags[id].name in Names(ts) {
      var k :| 0 <= k < |ts| && Names(ts)[k] == tags[id].name;
      assert ls[k] in ls;
      assert ls[k].tagId == id;
      assert ls[k] == TemplateTag(templateId, id);
    }
    if TemplateTag(templateId, id) in links {
      assert TemplateTag(templateId, id) in ls;
      var k :| 0 <= k < |ls| && ls[k] == TemplateTag(templateId, id);
      assert Names(ts)[k] == tags[id].name;
    }
  }

  /** Every name a template is tagged with is the name of a stored tag. */
  lemma LinkedNameIsStored(tags: seq<Tag>, links: seq<TemplateTag>, templateId: int, name: string)
    requires LinksReferTo(tags, links) && name in LinkedNames(tags, links, templateId)
    ensures FindByName(tags, name).Some?
  {
    var ts := TagsOfTemplate(tags, links, templateId);
    var ls := LinksOf(links, templateId);
    TagsOfTemplateAt(tags, links, templateId);
    NamesAt(ts);
    var k :| 0 <= k < |ts| && Names(ts)[k] == name;
    assert ls[k] in ls;
    assert tags[ls[k].tagId].name == name;
  }

  // ---------------------------------------------------------------------
  // The name lists the updates produce

  /** The names `names` adds, in turn, to the list `acc`: each one not yet
      present is appended. The contract states membership; the order (`acc`
      first, then the new names in input order) is given by the definition. */
  function AppendMissing(acc: seq<string>, names: seq<string>): (r: seq<string>)
    ensures acc <= r
    ensures forall x :: x in r <==> x in acc || x in names
    ensures Distinct(acc) ==> Distinct(r)
  {
    if names == [] then acc
    else
      var r := AppendMissing(acc, names[..|names| - 1]);
      var x := names[|names| - 1];
      assert names == names[..|names| - 1] + [x];
      if x in r then r else r + [x]
  }

  /** The names of `ns` that are also in `names`. The contract states
      membership; the order (that of `ns`) is given by the definition. */
  function Keep(ns: seq<string>, names: seq<string>): (r: seq<string>)
    ensures forall x :: x in r <==> x in ns && x in names
    ensures Distinct(ns) ==> Distinct(r)
  {
    if ns == [] then []
    else
      var r := Keep(ns[..|ns| - 1], names);
      var x := ns[|ns| - 1];
      assert ns == ns[..|ns| - 1] + [x];
      if x in names then r + [x] else r
  }

  /** The names of a template's tags after an update to `names`: the old
      ones still wanted, then the new ones. Exactly the wanted names. */
  function Reconcile(old_names: seq<string>, names: seq<string>): (r: seq<string>)
    ensures forall x :: x in r <==> x in names
    ensures Distinct(old_names) ==> Distinct(r)
  {
    AppendMissing(Keep(old_names, names), names)
  }

  /** Adding names that are all present already changes nothing. */
  lemma {:induction false} AppendMissingPresent(acc: seq<string>, names: seq<string>)
    requires forall x :: x in names ==> x in acc
    ensures AppendMissing(acc, names) == acc
  {
    if names != [] {
      AppendMissingPresent(acc, names[..|names| - 1]);
    }
  }

  /** If a template is tagged with a prefix of a list of distinct names,
      adding the list tags it with exactly that list, in that order. With
      the empty prefix: tagging an untagged template. */
  lemma {:induction false} AppendMissingOntoPrefix(acc: seq<string>, names: seq<string>)
    requires Distinct(names) && acc <= names
    ensures AppendMissing(acc, names) == names
  {
    if |acc| == |names| {
      assert acc == names;
      AppendMissingPresent(acc, names);
    } else {
      var init := names[..|names| - 1];
      assert acc <= init;
      AppendMissingOntoPrefix(acc, init);
      assert names[|names| - 1] !in init;
      assert names == init + [names[|names| - 1]];
    }
  }

  /** Keeping names that are all wanted keeps the list. */
  lemma {:induction false} KeepAll(ns: seq<string>, names: seq<string>)
    requires forall x :: x in ns ==> x in names
    ensures Keep(ns, names) == ns
  {
    if ns != [] {
      KeepAll(ns[..|ns| - 1], names);
      assert ns == ns[..|ns| - 1] + [ns[|ns| - 1]];
    }
  }

  /** Keeping against the empty list keeps nothing. */
  lemma {:induction false} KeepNone(ns: seq<string>)
    ensures Keep(ns, []) == []
  {
    if ns != [] {
      KeepNone(ns[..|ns| - 1]);
    }
  }

  /** Updating twice to the same names is updating once. */
  lemma ReconcileIdempotent(old_names: seq<string>, names: seq<string>)
    ensures Reconcile(Reconcile(old_names, names), names) == Reconcile(old_names, names)
  {
    var r := Reconcile(old_names, names);
    KeepAll(r, names);
    AppendMissingPresent(r, names);
  }

  /** Updating to the empty list leaves no tag. */
  lemma ReconcileToNothing(old_names: seq<string>)
    ensures Reconcile(old_names, []) == []
  {
    KeepNone(old_names);
  }

  /** When the kept names are a prefix of the wanted distinct names, the
      update leaves exactly the wanted names, in their order. */
  lemma ReconcileOntoPrefix(old_names: seq<string>, names: seq<string>)
    requires Distinct(names) && Keep(old_names, names) <= names
    ensures Reconcile(old_names, names) == names
  {
    AppendMissingOntoPrefix(Keep(old_names, names), names);
  }

  // ---------------------------------------------------------------------
  // Link removal

  /** Whether deleting stale links for template `templateId` deletes `l`:
      a link of that template to a tag whose name is not wanted. */
  predicate IsStale(tags: seq<Tag>, l: TemplateTag, templateId: int, names: seq<string>)
    requires l.tagId < |tags|
  {
    l.templateId == templateId && tags[l.tagId].name !in names
  }

  /** The links left after the stale links of template `templateId` are
      deleted. */
  function DropStale(tags: seq<Tag>, links: seq<TemplateTag>, templateId: int, names: seq<string>): (r: seq<TemplateTag>)
    requires LinksReferTo(tags, links)
    ensures forall l :: l in r ==> l in links && !IsStale(tags, l, templateId, names)
  {
    if links == [] then []
    else
      var l := links[|links| - 1];
      assert l in links;
      var rest := DropStale(tags, links[..|links| - 1], templateId, names);
      if IsStale(tags, l, templateId, names) then rest else rest + [l]
  }

  /** Deleting stale links keeps the table free of duplicate rows and
      leaves other templates' links as they were. */
  lemma {:induction false} DropStaleKeepsOthers(tags: seq<Tag>, links: seq<TemplateTag>, templateId: int, names: seq<string>)
    requires LinksReferTo(tags, links)
    ensures Distinct(links) ==> Distinct(DropStale(tags, links, templateId, names))
    ensures forall t :: t != templateId ==> LinksOf(DropStale(tags, links, templateId, names), t) == LinksOf(links, t)
  {
    if links != [] {
      var init := links[..|links| - 1];
      var l := links[|links| - 1];
      assert links == init + [l];
      DropStaleKeepsOthers(tags, init, templateId, names);
      var rest := DropStale(tags, init, templateId, names);
      forall t ensures LinksOf(links, t) == LinksOf(init, t) + if l.templateId == t then [l] else [] {
        LinksOfAppend(init, l, t);
      }
      if !IsStale(tags, l, templateId, names) {
        forall t ensures LinksOf(rest + [l], t) == LinksOf(rest, t) + if l.templateId == t then [l] else [] {
          LinksOfAppend(rest, l, t);
        }
        if Distinct(links) {
          DistinctInit(links);
          assert l !in rest;
          DistinctAppend(rest, l);
        }
      }
    }
  }

  /** After stale links are deleted the template's tag names are the old
      ones that are wanted, in their order. */
  lemma {:induction false} DropStaleNames(tags: seq<Tag>, links: seq<TemplateTag>, templateId: int, names: seq<string>)
    requires LinksReferTo(tags, links)
    ensures LinksReferTo(tags, DropStale(tags, links, templateId, names))
    ensures LinkedNames(tags, DropStale(tags, links, templateId, names), templateId)
         == Keep(LinkedNames(tags, links, templateId), names)
  {
    if links != [] {
      var init := links[..|links| - 1];
      var l := links[|links| - 1];
      assert links == init + [l];
      DropStaleNames(tags, init, templateId, names);
      var rest := DropStale(tags, init, templateId, names);
      LinkedNamesAppend(tags, init, l, templateId);
      var old_names := LinkedNames(tags, links, templateId);
      if l.templateId == templateId {
        assert old_names[..|old_names| - 1] == LinkedNames(tags, init, templateId);
      } else {
        assert old_names == LinkedNames(tags, init, templateId);
        if old_names != [] {
          assert old_names == old_names[..|old_names| - 1] + [old_names[|old_names| - 1]];
        }
      }
      if !IsStale(tags, l, templateId, names) {
        LinkedNamesAppend(tags, rest, l, templateId);
      }
    }
  }

  /** The links left after every link of the given templates is deleted. */
  function WithoutTemplates(links: seq<TemplateTag>, templateIds: seq<int>): (r: seq<TemplateTag>)
    ensures forall l :: l in r ==> l in links && l.templateId !in templateIds
  {
    if links == [] then []
    else
      var l := links[|links| - 1];
      assert l in links;
      var rest := WithoutTemplates(links[..|links| - 1], templateIds);
      if l.templateId in templateIds then rest else rest + [l]
  }

  /** Bulk deletion empties the given templates' link lists, leaves every
      other template's list as it was, and keeps the table free of
      duplicate rows. */
  lemma WithoutTemplatesMeaning(links: seq<TemplateTag>, templateIds: seq<int>)
    ensures Distinct(links) ==> Distinct(WithoutTemplates(links, templateIds))
    ensures forall t :: LinksOf(WithoutTemplates(links, templateIds), t) == if t in templateIds then [] else LinksOf(links, t)
  {
    WithoutTemplatesDistinct(links, templateIds);
    WithoutTemplatesLinks(links, templateIds);
  }

  /** Bulk deletion keeps a duplicate-free table duplicate-free. */
  lemma {:induction false} WithoutTemplatesDistinct(links: seq<TemplateTag>, templateIds: seq<int>)
    ensures Distinct(links) ==> Distinct(WithoutTemplates(links, templateIds))
  {
    if links != [] && Distinct(links) {
      var init := links[..|links| - 1];
      var l := links[|links| - 1];
      DistinctInit(links);
      WithoutTemplatesDistinct(init, templateIds);
      var rest := WithoutTemplates(init, templateIds);
      if l.templateId !in templateIds {
        assert links == init + [l];
        assert l !in rest;
        DistinctAppend(rest, l);
      }
    }
  }

  /** Bulk deletion, template by template. */
  lemma {:induction false} WithoutTemplatesLinks(links: seq<TemplateTag>, templateIds: seq<int>)
    ensures forall t :: LinksOf(WithoutTemplates(links, templateIds), t) == if t in templateIds then [] else LinksOf(links, t)
  {
    if links != [] {
      var init := links[..|links| - 1];
      var l := links[|links| - 1];
      assert links == init + [l];
      WithoutTemplatesLinks(init, templateIds);
      var rest := WithoutTemplates(init, templateIds);
      forall t ensures LinksOf(links, t) == LinksOf(init, t) + if l.templateId == t then [l] else [] {
        LinksOfAppend(init, l, t);
      }
      if l.templateId !in templateIds {
        forall t ensures LinksOf(rest + [l], t) == LinksOf(rest, t) + if l.templateId == t then [l] else [] {
          LinksOfAppend(rest, l, t);
        }
      }
    }
  }

  /** Appending links of one template leaves every other template's link
      list as it was. */
  lemma {:induction false} LinksOfOwnAppended(before: seq<TemplateTag>, after: seq<TemplateTag>, templateId: int)
    requires before <= after
    requires forall k :: |before| <= k < |after| ==> after[k].templateId == templateId
    ensures forall t :: t != templateId ==> LinksOf(after, t) == LinksOf(before, t)
  {
    if |after| > |before| {
      var init := after[..|after| - 1];
      assert before <= init;
      LinksOfOwnAppended(before, init, templateId);
      assert after == init + [after[|after| - 1]];
      forall t ensures LinksOf(after, t) == LinksOf(init, t) + if after[|after| - 1].templateId == t then [after[|after| - 1]] else [] {
        LinksOfAppend(init, after[|after| - 1], t);
      }
    } else {
      assert before == after;
    }
  }

  lemma PrefixSnoc<T>(s: seq<T>, i: nat)
    requires i < |s|
    ensures s[..i + 1] == s[..i] + [s[i]]
  {
  }

  lemma DistinctInit<T>(s: seq<T>)
    requires Distinct(s) && s != []
    ensures Distinct(s[..|s| - 1])
  {
    var init := s[..|s| - 1];
    forall a, b | 0 <= a < b < |init| ensures init[a] != init[b] {
      assert init[a] == s[a] && init[b] == s[b];
    }
  }

  lemma DistinctAppend<T>(s: seq<T>, x: T)
    requires Distinct(s) && x !in s
    ensures Distinct(s + [x])
  {
    var r := s + [x];
    forall a, b | 0 <= a < b < |r| ensures r[a] != r[b] {
      if b == |s| {
        assert r[a] == s[a];
      } else {
        assert r[a] == s[a] && r[b] == s[b];
      }
    }
  }

  // ---------------------------------------------------------------------
  // Queries

  /** `findAllByTemplates`: the tags linked to any of the templates, each
      once, in the order of their first link. */
  function FindAllByTemplates(tags: seq<Tag>, links: seq<TemplateTag>, templateIds: seq<int>): (r: seq<Tag>)
    requires LinksReferTo(tags, links)
    ensures Distinct(r)
    ensures forall t :: t in r <==> exists l :: l in links && l.templateId in templateIds && t == tags[l.tagId]
  {
    if links == [] then []
    else
      var init := links[..|links| - 1];
      var l := links[|links| - 1];
      assert links == init + [l];
      var rest := FindAllByTemplates(tags, init, templateIds);
      if l.templateId in templateIds && tags[l.tagId] !in rest then rest + [tags[l.tagId]] else rest
  }

  /** No tag is found exactly when none of the templates has a link. */
  lemma FindAllByTemplatesEmpty(tags: seq<Tag>, links: seq<TemplateTag>, templateIds: seq<int>)
    requires LinksReferTo(tags, links)
    ensures FindAllByTemplates(tags, links, templateIds) == [] <==>
              forall t :: t in templateIds ==> LinksOf(links, t) == []
  {
    var r := FindAllByTemplates(tags, links, templateIds);
    if r != [] {
      assert r[0] in r;
      var l :| l in links && l.templateId in templateIds && r[0] == tags[l.tagId];
      assert l in LinksOf(links, l.templateId);
    }
    if exists t :: t in templateIds && LinksOf(links, t) != [] {
      var t :| t in templateIds && LinksOf(links, t) != [];
      var l := LinksOf(links, t)[0];
      assert l in LinksOf(links, t);
      assert tags[l.tagId] in r;
    }
  }

  /** A template's tags, as the service returns them: each once, and
      exactly the tags the template is linked to. */
  lemma TagsOfTemplateMeaning(tags: seq<Tag>, links: seq<TemplateTag>, templateId: int)
    requires TagTable(tags) && LinksReferTo(tags, links) && Distinct(links)
    ensures TagsOfTemplate(tags, links, templateId) == [] <==> LinksOf(links, templateId) == []
    ensures Distinct(TagsOfTemplate(tags, links, templateId))
    ensures forall t :: t in TagsOfTemplate(tags, links, templateId) <==> t in tags && TemplateTag(templateId, t.id) in links
  {
    var r := TagsOfTemplate(tags, links, templateId);
    var ls := LinksOf(links, templateId);
    TagsOfTemplateAt(tags, links, templateId);
    forall i, j | 0 <= i < j < |r| ensures r[i] != r[j] {
      LinksOfDistinct(links, templateId, i, j);
      assert ls[i] in ls && ls[j] in ls;
      assert tags[ls[i].tagId].id == ls[i].tagId;
      assert tags[ls[j].tagId].id == ls[j].tagId;
    }
    forall t | t in r ensures t in tags && TemplateTag(templateId, t.id) in links {
      var k :| 0 <= k < |r| && r[k] == t;
      assert ls[k] in ls;
      assert tags[ls[k].tagId].id == ls[k].tagId;
    }
    forall t | t in tags && TemplateTag(templateId, t.id) in links ensures t in r {
      var l := TemplateTag(templateId, t.id);
      assert l in ls;
      var k :| 0 <= k < |ls| && ls[k] == l;
      var p :| 0 <= p < |tags| && tags[p] == t;
      assert r[k] == tags[t.id];
    }
  }

  // ---------------------------------------------------------------------
  // Tagging a template

  /** The tables are consistent: unique tag names, links naming stored
      tags, no (template, tag) pair twice. */
  predicate Consistent(tags: seq<Tag>, links: seq<TemplateTag>) {
    TagTable(tags) && LinksReferTo(tags, links) && Distinct(links)
  }

  /** One name of `createTags`: the tag is found or saved, then the
      template is linked to it once. Afterwards the tag exists, and the name
      is among the template's tag names, appended at the end if it was not
      there. */
  method AddName(tags: seq<Tag>, links: seq<TemplateTag>, templateId: int, name: string)
    returns (tags': seq<Tag>, links': seq<TemplateTag>)
    requires Consistent(tags, links)
    ensures Consistent(tags', links')
    ensures tags <= tags' && forall i :: |tags| <= i < |tags'| ==> tags'[i].name == name
    ensures FindByName(tags', name).Some?
    ensures links <= links' && forall k :: |links| <= k < |links'| ==> links'[k].templateId == templateId
    ensures var before := LinkedNames(tags, links, templateId);
      LinkedNames(tags', links', templateId) == if name in before then before else before + [name]
  {
    var tagId;
    tags', tagId := FindOrSaveTag(tags, links, templateId, name);
    links' := LinkOnce(tags', links, templateId, tagId);
  }

  /** `tagRepository.findByName(name)`, saving `new Tag(name)` when there
      is none: the id of the tag with that name, stored afterwards; only
      that tag may be added, and no template's tag names change. */
  method FindOrSaveTag(tags: seq<Tag>, links: seq<TemplateTag>, templateId: int, name: string)
    returns (tags': seq<Tag>, tagId: nat)
    requires Consistent(tags, links)
    ensures Consistent(tags', links)
    ensures tagId < |tags'| && tags'[tagId].name == name
    ensures tags <= tags' && forall i :: |tags| <= i < |tags'| ==> tags'[i].name == name
    ensures LinkedNames(tags', links, templateId) == LinkedNames(tags, links, templateId)
  {
    var found := FindByName(tags, name);
    if found.None? {
      SaveTag(tags, links, templateId, name);
      tagId := |tags|;
      tags' := tags + [Tag(tagId, name)];
    } else {
      tagId := found.value;
      tags' := tags;
    }
  }

  /** Links the template to a stored tag unless the link exists: the tag's
      name is then among the template's names, appended at the end if it
      was not there. */
  method LinkOnce(tags: seq<Tag>, links: seq<TemplateTag>, templateId: int, tagId: nat)
    returns (links': seq<TemplateTag>)
    requires Consistent(tags, links) && tagId < |tags|
    ensures Consistent(tags, links')
    ensures links <= links' && forall k :: |links| <= k < |links'| ==> links'[k].templateId == templateId
    ensures var before := LinkedNames(tags, links, templateId);
      LinkedNames(tags, links', templateId)
      == if tags[tagId].name in before then before else before + [tags[tagId].name]
  {
    var link := TemplateTag(templateId, tagId);
    if link !in links {
      SaveLink(tags, links, templateId, tagId);
      links' := links + [link];
    } else {
      LinkedNameIffLinked(tags, links, templateId, tagId);
      links' := links;
    }
  }

  /** Saving a tag under a name no tag has keeps the tables consistent,
      makes the name found at the new position, and changes no template's
      tag names. */
  lemma SaveTag(tags: seq<Tag>, links: seq<TemplateTag>, templateId: int, name: string)
    requires Consistent(tags, links) && FindByName(tags, name).None?
    ensures Consistent(tags + [Tag(|tags|, name)], links)
    ensures FindByName(tags + [Tag(|tags|, name)], name) == Some(|tags|)
    ensures LinkedNames(tags + [Tag(|tags|, name)], links, templateId) == LinkedNames(tags, links, templateId)
  {
    LinkedNamesNewTag(tags, Tag(|tags|, name), links, templateId);
  }

  /** Saving a link the table lacks keeps the tables consistent and
      appends the tag's name to the template's names, where it was not. */
  lemma SaveLink(tags: seq<Tag>, links: seq<TemplateTag>, templateId: int, tagId: nat)
    requires Consistent(tags, links) && tagId < |tags| && TemplateTag(templateId, tagId) !in links
    ensures Consistent(tags, links + [TemplateTag(templateId, tagId)])
    ensures tags[tagId].name !in LinkedNames(tags, links, templateId)
    ensures LinkedNames(tags, links + [TemplateTag(templateId, tagId)], templateId)
         == LinkedNames(tags, links, templateId) + [tags[tagId].name]
  {
    LinkedNameIffLinked(tags, links, templateId, tagId);
    LinkedNamesAppend(tags, links, TemplateTag(templateId, tagId), templateId);
    DistinctAppend(links, TemplateTag(templateId, tagId));
  }

  /** `createTags` over the two tables: every name in turn as by
      `AddName`. */
  method AddNames(tags: seq<Tag>, links: seq<TemplateTag>, templateId: int, names: seq<string>)
    returns (tags': seq<Tag>, links': seq<TemplateTag>)
    requires Consistent(tags, links)
    ensures Consistent(tags', links')
    ensures tags <= tags' && forall i :: |tags| <= i < |tags'| ==> tags'[i].name in names
    ensures forall n :: n in names ==> FindByName(tags', n).Some?
    ensures links <= links'
    ensures forall t :: t != templateId ==> LinksOf(links', t) == LinksOf(links, t)
    ensures LinkedNames(tags', links', templateId) == AppendMissing(LinkedNames(tags, links, templateId), names)
  {
    ghost var start := LinkedNames(tags, links, templateId);
    tags', links' := tags, links;
    var i := 0;
    while i < |names|
      invariant 0 <= i <= |names|
      invariant Consistent(tags', links')
      invariant tags <= tags' && forall k :: |tags| <= k < |tags'| ==> tags'[k].name in names
      invariant links <= links' && forall k :: |links| <= k < |links'| ==> links'[k].templateId == templateId
      invariant LinkedNames(tags', links', templateId) == AppendMissing(start, names[..i])
    {
      AppendMissingStep(start, names, i);
      var tags'', links'' := AddName(tags', links', templateId, names[i]);
      TagsGrow(tags, tags', tags'', names, names[i]);
      LinksGrow(links, links', links'', templateId);
      tags', links' := tags'', links'';
      i := i + 1;
    }
    assert names[..i] == names;
    LinksOfOwnAppended(links, links', templateId);
    NamesAllStored(tags', links', templateId, start, names);
  }

  /** Tags added in two steps, each under a name of the list. */
  lemma TagsGrow(a: seq<Tag>, b: seq<Tag>, c: seq<Tag>, names: seq<string>, name: string)
    requires a <= b && forall k :: |a| <= k < |b| ==> b[k].name in names
    requires b <= c && forall k :: |b| <= k < |c| ==> c[k].name == name
    requires name in names
    ensures a <= c && forall k :: |a| <= k < |c| ==> c[k].name in names
  {
    forall k | |a| <= k < |c| ensures c[k].name in names {
      if k < |b| {
        assert c[k] == b[k];
      }
    }
  }

  /** Links added in two steps, each for the same template. */
  lemma LinksGrow(a: seq<TemplateTag>, b: seq<TemplateTag>, c: seq<TemplateTag>, templateId: int)
    requires a <= b && forall k :: |a| <= k < |b| ==> b[k].templateId == templateId
    requires b <= c && forall k :: |b| <= k < |c| ==> c[k].templateId == templateId
    ensures a <= c && forall k :: |a| <= k < |c| ==> c[k].templateId == templateId
  {
    forall k | |a| <= k < |c| ensures c[k].templateId == templateId {
      if k < |b| {
        assert c[k] == b[k];
      }
    }
  }

  /** One more name of the list, as `AppendMissing` adds it. */
  lemma AppendMissingStep(acc: seq<string>, names: seq<string>, i: nat)
    requires i < |names|
    ensures var r := AppendMissing(acc, names[..i]);
      AppendMissing(acc, names[..i + 1]) == if names[i] in r then r else r + [names[i]]
  {
    PrefixSnoc(names, i);
    assert names[..i + 1][..i] == names[..i];
  }

  /** Every name a template ends up tagged with names a stored tag. */
  lemma NamesAllStored(tags: seq<Tag>, links: seq<TemplateTag>, templateId: int, start: seq<string>, names: seq<string>)
    requires LinksReferTo(tags, links)
    requires LinkedNames(tags, links, templateId) == AppendMissing(start, names)
    ensures forall n :: n in names ==> FindByName(tags, n).Some?
  {
    forall n | n in names ensures FindByName(tags, n).Some? {
      LinkedNameIsStored(tags, links, templateId, n);
    }
  }

  // ---------------------------------------------------------------------
  // The service

  /** The tag service over the tag and template-tag repositories. */
  class TagService {
    var tags: seq<Tag>
    var templateTags: seq<TemplateTag>

    /** Tag names are unique, every link names a stored tag, and no
        (template, tag) pair is linked twice. */
    ghost predicate Valid()
      reads this
    {
      TagTable(tags) && LinksReferTo(tags, templateTags) && Distinct(templateTags)
    }

    constructor ()
      ensures Valid() && tags == [] && templateTags == []
    {
      tags := [];
      templateTags := [];
    }

    /** `getByTemplate`: the template's tags in the order their links were
        saved, each once; empty when it has no link. */
    function GetByTemplate(templateId: int): (r: seq<Tag>)
      reads this
      requires Valid()
      ensures r == [] <==> LinksOf(templateTags, templateId) == []
      ensures Distinct(r)
      ensures forall t :: t in r <==> t in tags && TemplateTag(templateId, t.id) in templateTags
      ensures |r| == |LinksOf(templateTags, templateId)|
      ensures forall k :: 0 <= k < |r| ==> r[k] == tags[LinksOf(templateTags, templateId)[k].tagId]
    {
      TagsOfTemplateMeaning(tags, templateTags, templateId);
      TagsOfTemplateAt(tags, templateTags, templateId);
      TagsOfTemplate(tags, templateTags, templateId)
    }

    /** `createTags(template, names)`: each name in turn as by `AddName`.
        Tags and links are only added; other templates keep their links;
        the template's tag names become the old ones followed by the new
        ones in input order. */
    method CreateTags(templateId: int, names: seq<string>)
      requires Valid()
      modifies this
      ensures Valid()
      ensures old(tags) <= tags && forall i :: |old(tags)| <= i < |tags| ==> tags[i].name in names
      ensures forall n :: n in names ==> FindByName(tags, n).Some?
      ensures old(templateTags) <= templateTags
      ensures forall t :: t != templateId ==> LinksOf(templateTags, t) == LinksOf(old(templateTags), t)
      ensures LinkedNames(tags, templateTags, templateId)
              == AppendMissing(old(LinkedNames(tags, templateTags, templateId)), names)
    {
      tags, templateTags := AddNames(tags, templateTags, templateId, names);
    }

    /** `updateTags(template, names)`: the template's links to tags whose
        names are not wanted are deleted, then the names are added as by
        `createTags`. No tag row is deleted; other templates keep their
        links; the template ends up tagged with exactly the wanted names. */
    method UpdateTags(templateId: int, names: seq<string>)
      requires Valid()
      modifies this
      ensures Valid()
      ensures old(tags) <= tags && forall i :: |old(tags)| <= i < |tags| ==> tags[i].name in names
      ensures forall n :: n in names ==> FindByName(tags, n).Some?
      ensures forall t :: t != templateId ==> LinksOf(templateTags, t) == LinksOf(old(templateTags), t)
      ensures LinkedNames(tags, templateTags, templateId)
              == Reconcile(old(LinkedNames(tags, templateTags, templateId)), names)
    {
      DropStaleKeepsOthers(tags, templateTags, templateId, names);
      DropStaleNames(tags, templateTags, templateId, names);
      var kept := DropStale(tags, templateTags, templateId, names);
      tags, templateTags := AddNames(tags, kept, templateId, names);
    }

    /** `deleteByIds(templateIds)`: every link of those templates is
        deleted; tag rows and other templates' links stay. */
    method DeleteByIds(templateIds: seq<int>)
      requires Valid()
      modifies this`templateTags
      ensures Valid()
      ensures forall t :: t in templateIds ==> LinksOf(templateTags, t) == []
      ensures forall t :: t !in templateIds ==> LinksOf(templateTags, t) == LinksOf(old(templateTags), t)
    {
      WithoutTemplatesMeaning(templateTags, templateIds);
      templateTags := WithoutTemplates(templateTags, templateIds);
    }
  }

  /** Two links at different positions of a template's link list are
      different rows when the table holds no row twice. */
  lemma {:induction false} LinksOfDistinct(links: seq<TemplateTag>, templateId: int, i: nat, j: nat)
    requires Distinct(links) && i < j < |LinksOf(links, templateId)|
    ensures LinksOf(links, templateId)[i] != LinksOf(links, templateId)[j]
  {
    var init := links[..|links| - 1];
    var l := links[|links| - 1];
    assert links == init + [l];
    LinksOfAppend(init, l, templateId);
    var rest := LinksOf(init, templateId);
    assert Distinct(init) by {
      forall a, b | 0 <= a < b < |init| ensures init[a] != init[b] {
        assert init[a] == links[a] && init[b] == links[b];
      }
    }
    if j < |rest| {
      LinksOfDistinct(init, templateId, i, j);
    } else {
      assert LinksOf(links, templateId)[j] == l;
      assert LinksOf(links, templateId)[i] == rest[i];
      assert rest[i] in init;
      var a :| 0 <= a < |init| && init[a] == rest[i];
      assert links[a] != links[|links| - 1];
    }
  }

  // ---------------------------------------------------------------------
  // The cases the service's tests exercise

  /** A template linked to the first two rows of a two-row table. */
  lemma TwoLinkedTags(a: string, b: string, templateId: int)
    ensures TagsOfTemplate([Tag(0, a), Tag(1, b)], [TemplateTag(templateId, 0), TemplateTag(templateId, 1)], templateId)
         == [Tag(0, a), Tag(1, b)]
    ensures LinkedNames([Tag(0, a), Tag(1, b)], [TemplateTag(templateId, 0), TemplateTag(templateId, 1)], templateId)
         == [a, b]
  {
    var tags := [Tag(0, a), Tag(1, b)];
    var one := [TemplateTag(templateId, 0)];
    var two := one + [TemplateTag(templateId, 1)];
    assert two[..1] == one && one[..0] == [];
    assert TagsOfTemplate(tags, one, templateId) == [Tag(0, a)];
    assert Names([Tag(0, a)]) == [a];
    assert [Tag(0, a), Tag(1, b)][..1] == [Tag(0, a)];
  }

  /** The names an update from ["tag1"] to ["tag1", "tag2"] leaves. */
  lemma KeepThenAddExample()
    ensures Reconcile(["tag1"], ["tag1", "tag2"]) == ["tag1", "tag2"]
  {
    var names := ["tag1", "tag2"];
    assert ["tag1"][..0] == [];
    assert Keep(["tag1"], names) == ["tag1"];
    assert "tag1"[3] != "tag2"[3];
    assert Distinct(names);
    ReconcileOntoPrefix(["tag1"], names);
  }

  /** The names an update from ["go", "rust"] to ["rust", "zig"] leaves. */
  lemma DropThenAddExample()
    ensures Reconcile(["go", "rust"], ["rust", "zig"]) == ["rust", "zig"]
  {
    var names := ["rust", "zig"];
    assert ["go", "rust"][..1] == ["go"] && ["go"][..0] == [];
    assert Keep(["go"], names) == [];
    assert Keep(["go", "rust"], names) == ["rust"];
    assert Distinct(names);
    ReconcileOntoPrefix(["go", "rust"], names);
  }

  /** Tagging an untagged template: its tags read back as the input list. */
  method CreateTagsScenario() returns (saved: seq<string>)
    ensures saved == ["tag1", "tag2", "tag3"]
  {
    var names := ["tag1", "tag2", "tag3"];
    var service := new TagService();
    service.CreateTags(1, names);
    AppendMissingOntoPrefix([], names);
    saved := Names(service.GetByTemplate(1));
  }

  /** A name the template is already linked to is not linked twice: three
      names, three links, in input order. */
  method CreateTagsWithLinkedTagScenario() returns (saved: seq<string>)
    ensures saved == ["tag1", "tag2", "tag3"]
  {
    var names := ["tag1", "tag2", "tag3"];
    var service := new TagService();
    service.tags, service.templateTags := [Tag(0, "tag1")], [TemplateTag(1, 0)];
    assert LinkedNames(service.tags, service.templateTags, 1) == ["tag1"];
    service.CreateTags(1, names);
    AppendMissingOntoPrefix(["tag1"], names);
    saved := Names(service.GetByTemplate(1));
  }

  /** A stored tag not yet linked to the template is reused: only the link
      is added, and the tag keeps its row. */
  method CreateTagsWithStoredTagScenario() returns (saved: seq<string>, first: Tag)
    ensures saved == ["tag1", "tag2", "tag3"]
    ensures first == Tag(0, "tag1")
  {
    var names := ["tag1", "tag2", "tag3"];
    var service := new TagService();
    service.tags := [Tag(0, "tag1")];
    service.CreateTags(1, names);
    AppendMissingOntoPrefix([], names);
    saved := Names(service.GetByTemplate(1));
    first := service.tags[0];
  }

  /** `getByTemplate` returns the tags in link order, and nothing for a
      template without links even when tags are stored. */
  method GetByTemplateScenario() returns (linked: seq<Tag>, unlinked: seq<Tag>)
    ensures linked == [Tag(0, "tag1"), Tag(1, "tag2")]
    ensures unlinked == []
  {
    var service := new TagService();
    service.tags := [Tag(0, "tag1"), Tag(1, "tag2")];
    service.templateTags := [TemplateTag(1, 0), TemplateTag(1, 1)];
    assert service.templateTags[..1] == [TemplateTag(1, 0)];
    assert LinksOf([TemplateTag(1, 0)], 2) == [];
    TwoLinkedTags("tag1", "tag2", 1);
    linked := service.GetByTemplate(1);
    unlinked := service.GetByTemplate(2);
  }

  /** `findAllByTemplates` lists each tag of the templates once, and
      nothing when they have no links. */
  method FindAllByTemplatesScenario() returns (separate: seq<Tag>, shared: seq<Tag>, none: seq<Tag>)
    ensures separate == [Tag(0, "tag1"), Tag(1, "tag2")]
    ensures shared == [Tag(0, "tag1"), Tag(1, "tag2")]
    ensures none == []
  {
    var tags := [Tag(0, "tag1"), Tag(1, "tag2")];
    var one := [TemplateTag(1, 0)];
    var two := one + [TemplateTag(2, 1)];
    assert two[..1] == one && one[..0] == [];
    assert FindAllByTemplates(tags, one, [1, 2]) == [Tag(0, "tag1")];
    separate := FindAllByTemplates(tags, two, [1, 2]);
    var both := one + [TemplateTag(1, 1)];
    var three := both + [TemplateTag(2, 1)];
    assert three[..2] == both && both[..1] == one;
    assert FindAllByTemplates(tags, both, [1, 2]) == [Tag(0, "tag1"), Tag(1, "tag2")];
    shared := FindAllByTemplates(tags, three, [1, 2]);
    none := FindAllByTemplates(tags, [], [1]);
  }

  /** `updateTags` with a new name stores the tag and links it. */
  method UpdateTagsNewScenario() returns (saved: seq<string>, stored: bool)
    ensures saved == ["tag1"] && stored
  {
    var service := new TagService();
    service.UpdateTags(1, ["tag1"]);
    ReconcileOntoPrefix([], ["tag1"]);
    saved := Names(service.GetByTemplate(1));
    stored := FindByName(service.tags, "tag1").Some?;
  }

  /** `updateTags` with the empty list removes every link of the template. */
  method UpdateTagsToNothingScenario() returns (left: seq<Tag>)
    ensures left == []
  {
    var service := new TagService();
    service.tags := [Tag(0, "tag1"), Tag(1, "tag2")];
    service.templateTags := [TemplateTag(1, 0), TemplateTag(1, 1)];
    ghost var before := LinkedNames(service.tags, service.templateTags, 1);
    service.UpdateTags(1, []);
    ReconcileToNothing(before);
    left := service.GetByTemplate(1);
    NamesAt(left);
  }

  /** `updateTags([tag1, tag2])` on a template linked to tag1 leaves two
      links, in that order. */
  method UpdateTagsKeepScenario() returns (saved: seq<string>)
    ensures saved == ["tag1", "tag2"]
  {
    var service := new TagService();
    service.tags, service.templateTags := [Tag(0, "tag1")], [TemplateTag(1, 0)];
    assert LinkedNames(service.tags, service.templateTags, 1) == ["tag1"];
    service.UpdateTags(1, ["tag1", "tag2"]);
    KeepThenAddExample();
    saved := Names(service.GetByTemplate(1));
  }

  /** Tags ["go", "rust"] updated to ["rust", "zig"]: the template is
      tagged "rust", "zig", and the "go" tag survives for reuse. */
  method ReconcileScenario() returns (saved: seq<string>, goKept: bool)
    ensures saved == ["rust", "zig"] && goKept
  {
    var service := new TagService();
    service.tags := [Tag(0, "go"), Tag(1, "rust")];
    service.templateTags := [TemplateTag(1, 0), TemplateTag(1, 1)];
    TwoLinkedTags("go", "rust", 1);
    service.UpdateTags(1, ["rust", "zig"]);
    DropThenAddExample();
    saved := Names(service.GetByTemplate(1));
    goKept := FindByName(service.tags, "go").Some?;
  }

  /** `deleteByIds` removes the template's links and keeps both tags; with
      no links it changes nothing. */
  method DeleteByIdsScenario() returns (left: seq<Tag>, tag1: bool, tag2: bool, unlinked: seq<Tag>)
    ensures left == [] && tag1 && tag2 && unlinked == []
  {
    var service := new TagService();
    service.tags := [Tag(0, "tag1"), Tag(1, "tag2")];
    service.templateTags := [TemplateTag(1, 0), TemplateTag(1, 1)];
    service.DeleteByIds([1]);
    left := service.GetByTemplate(1);
    tag1 := FindByName(service.tags, "tag1").Some?;
    tag2 := FindByName(service.tags, "tag2").Some?;
    service.DeleteByIds([2]);
    unlinked := service.GetByTemplate(2);
  }
}
