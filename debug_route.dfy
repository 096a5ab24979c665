/** `GET /api/debug`: the join of articles to sections. Sections are keyed by
    their priority in a JavaScript `Map` (insertion order of first use; a later
    section with the same priority replaces the entry). Each article is pushed
    onto the entry of its `section` number; an article without one is an orphan. */
module DebugRoute {
  import opened Js
  import opened Store
  import opened ArticleModel
  import opened SectionModel

  /** `typeof` of a numeric path: a number, or null, which is an "object". */
  function TypeOf(v: Option<int>): string {
    if v.Some? then "number" else "object"
  }

  datatype ArticleInfo = ArticleInfo(id: Id, title: string, section: int, kind: string)

  datatype SectionInfo = SectionInfo(id: Id, name: string, priority: Option<int>, kind: string, articles: seq<ArticleInfo>)

  datatype Report = Report(articleCount: nat, sectionCount: nat, sections: seq<SectionInfo>, orphanedArticles: seq<ArticleInfo>)

  function Info(a: Doc<Article>): ArticleInfo {
    ArticleInfo(a.id, a.data.title, a.data.section, TypeOf(Some(a.data.section)))
  }

  function Entry(s: Doc<Section>, items: seq<ArticleInfo>): SectionInfo {
    SectionInfo(s.id, s.data.name, s.data.priority, TypeOf(s.data.priority), items)
  }

  predicate DistinctKeys(keys: seq<Option<int>>) {
    forall i, j :: 0 <= i < j < |keys| ==> keys[i] != keys[j]
  }

  /** The keys of the section map, in the order they were first set. */
  function SectionKeys(sections: seq<Doc<Section>>): (keys: seq<Option<int>>)
    ensures |keys| <= |sections|
    ensures DistinctKeys(keys)
  {
    if sections == [] then []
    else
      var keys := SectionKeys(sections[..|sections| - 1]);
      var p := sections[|sections| - 1].data.priority;
      if p in keys then keys else keys + [p]
  }

  /** The map has a key for every priority some section has, and no other. */
  lemma {:induction false} SectionKeysMembers(sections: seq<Doc<Section>>)
    ensures forall p :: p in SectionKeys(sections) <==> exists k :: 0 <= k < |sections| && sections[k].data.priority == p
  {
    if sections != [] {
      var init := sections[..|sections| - 1];
      SectionKeysMembers(init);
      assert forall k :: 0 <= k < |init| ==> init[k] == sections[k];
    }
  }

  /** The section whose entry the map holds for key p: the last one with that priority. */
  function LastWith(sections: seq<Doc<Section>>, p: Option<int>): (r: Option<nat>)
    ensures r.Some? ==> r.value < |sections| && sections[r.value].data.priority == p
  {
    if sections == [] then None
    else if sections[|sections| - 1].data.priority == p then Some(|sections| - 1)
    else LastWith(sections[..|sections| - 1], p)
  }

  /** The entry for p comes from the last section with priority p, and there is one exactly when some section has it. */
  lemma {:induction false} LastWithIsLast(sections: seq<Doc<Section>>, p: Option<int>)
    ensures LastWith(sections, p).Some? ==>
      forall k :: LastWith(sections, p).value < k < |sections| ==> sections[k].data.priority != p
    ensures LastWith(sections, p).None? <==> forall k :: 0 <= k < |sections| ==> sections[k].data.priority != p
  {
    if sections != [] && sections[|sections| - 1].data.priority != p {
      var init := sections[..|sections| - 1];
      LastWithIsLast(init, p);
      assert forall k :: 0 <= k < |init| ==> init[k] == sections[k];
    }
  }

  /** The articles pushed onto the entry for key p, in input order. */
  function Filed(articles: seq<Doc<Article>>, p: Option<int>): (r: seq<ArticleInfo>)
    ensures |r| <= |articles|
    ensures forall x :: x in r ==> p == Some(x.section)
    ensures forall k :: 0 <= k < |articles| && Some(articles[k].data.section) == p ==> Info(articles[k]) in r
  {
    if articles == [] then []
    else
      var init := articles[..|articles| - 1];
      var a := articles[|articles| - 1];
      assert forall k :: 0 <= k < |init| ==> init[k] == articles[k];
      Filed(init, p) + (if Some(a.data.section) == p then [Info(a)] else [])
  }

  /** `orphanedArticles`: the articles whose section number is no key of the map, in input order. */
  function Orphans(articles: seq<Doc<Article>>, keys: seq<Option<int>>): (r: seq<ArticleInfo>)
    ensures |r| <= |articles|
    ensures forall x :: x in r ==> Some(x.section) !in keys
    ensures forall k :: 0 <= k < |articles| && Some(articles[k].data.section) !in keys ==> Info(articles[k]) in r
  {
    if articles == [] then []
    else
      var init := articles[..|articles| - 1];
      var a := articles[|articles| - 1];
      assert forall k :: 0 <= k < |init| ==> init[k] == articles[k];
      Orphans(init, keys) + (if Some(a.data.section) !in keys then [Info(a)] else [])
  }

  /** One more section: its priority becomes a new key unless it is one already, and it is now the last with that priority. */
  lemma MapOneMore(sections: seq<Doc<Section>>, i: nat)
    requires i < |sections|
    ensures SectionKeys(sections[..i + 1]) ==
      (if sections[i].data.priority in SectionKeys(sections[..i]) then SectionKeys(sections[..i])
       else SectionKeys(sections[..i]) + [sections[i].data.priority])
    ensures forall q :: LastWith(sections[..i + 1], q)
                        == (if q == sections[i].data.priority then Some(i) else LastWith(sections[..i], q))
  {
    var pre := sections[..i + 1];
    assert pre[..i] == sections[..i] && pre[i] == sections[i];
    forall q ensures LastWith(pre, q) == (if q == sections[i].data.priority then Some(i) else LastWith(sections[..i], q)) {
      assert pre != [] && |pre| - 1 == i;
    }
  }

  /** The section map after the sections `pre`: keys in insertion order, and
      for each key the entry of the last section with that priority. */
  ghost predicate SectionMap(pre: seq<Doc<Section>>, order: seq<Option<int>>, entries: map<Option<int>, SectionInfo>) {
    && order == SectionKeys(pre)
    && (forall p :: p in entries <==> p in order)
    && forall p :: p in entries ==> LastWith(pre, p).Some? && entries[p] == Entry(pre[LastWith(pre, p).value], [])
  }

  /** One step of the first `forEach`: setting the entry of the next section keeps the map right. */
  lemma SectionMapStep(sections: seq<Doc<Section>>, i: nat, order: seq<Option<int>>, entries: map<Option<int>, SectionInfo>)
    requires i < |sections|
    requires SectionMap(sections[..i], order, entries)
    ensures var p := sections[i].data.priority;
      SectionMap(sections[..i + 1], if p in entries then order else order + [p], entries[p := Entry(sections[i], [])])
  {
    var p := sections[i].data.priority;
    var pre := sections[..i + 1];
    var next := entries[p := Entry(sections[i], [])];
    MapOneMore(sections, i);
    forall q | q in next
      ensures LastWith(pre, q).Some? && next[q] == Entry(pre[LastWith(pre, q).value], [])
    {
      if q == p {
        assert LastWith(pre, q) == Some(i) && pre[i] == sections[i];
      } else {
        assert q in entries && next[q] == entries[q];
        var j := LastWith(sections[..i], q).value;
        assert LastWith(pre, q) == Some(j) && pre[j] == sections[..i][j];
      }
    }
  }

  /** The section map after the first `forEach`: its keys in insertion order and the entries. */
  method MapSections(sections: seq<Doc<Section>>) returns (order: seq<Option<int>>, entries: map<Option<int>, SectionInfo>)
    ensures order == SectionKeys(sections)
    ensures forall p :: p in entries <==> p in order
    ensures forall p :: p in entries ==>
      LastWith(sections, p).Some? && entries[p] == Entry(sections[LastWith(sections, p).value], [])
  {
    order := [];
    entries := map[];
    var i := 0;
    while i < |sections|
      invariant 0 <= i <= |sections|
      invariant SectionMap(sections[..i], order, entries)
    {
      var s := sections[i];
      var p := s.data.priority;
      SectionMapStep(sections, i, order, entries);
      if p !in entries {
        order := order + [p];
      }
      entries := entries[p := Entry(s, [])];
      i := i + 1;
    }
    assert sections[..i] == sections;
  }

  /** The second `forEach`: each article pushed onto the entry of its section number, if there is one. */
  method FileArticles(articles: seq<Doc<Article>>, sections: seq<Doc<Section>>, order: seq<Option<int>>,
                      entries0: map<Option<int>, SectionInfo>)
    returns (entries: map<Option<int>, SectionInfo>)
    requires forall p :: p in entries0 <==> p in order
    requires forall p :: p in entries0 ==>
      LastWith(sections, p).Some? && entries0[p] == Entry(sections[LastWith(sections, p).value], [])
    ensures forall p :: p in entries <==> p in order
    ensures forall p :: p in entries ==>
      LastWith(sections, p).Some? && entries[p] == Entry(sections[LastWith(sections, p).value], Filed(articles, p))
  {
    entries := entries0;
    var j := 0;
    while j < |articles|
      invariant 0 <= j <= |articles|
      invariant forall p :: p in entries <==> p in order
      invariant forall p :: p in entries ==>
        LastWith(sections, p).Some? && entries[p] == Entry(sections[LastWith(sections, p).value], Filed(articles[..j], p))
    {
      var a := articles[j];
      var key := Some(a.data.section);
      assert articles[..j + 1][..j] == articles[..j];
      if key in entries {
        entries := entries[key := entries[key].(articles := entries[key].articles + [Info(a)])];
      }
      j := j + 1;
    }
    assert articles[..j] == articles;
  }

  /** `Array.from(sectionMap.values())`: the entries in key order. */
  method Values(order: seq<Option<int>>, entries: map<Option<int>, SectionInfo>) returns (result: seq<SectionInfo>)
    requires forall p :: p in order ==> p in entries
    ensures |result| == |order|
    ensures forall n :: 0 <= n < |order| ==> result[n] == entries[order[n]]
  {
    result := [];
    var k := 0;
    while k < |order|
      invariant 0 <= k <= |order|
      invariant |result| == k
      invariant forall n :: 0 <= n < k ==> result[n] == entries[order[n]]
    {
      result := result + [entries[order[k]]];
      k := k + 1;
    }
  }

  /** The handler. The status, timestamp and connection state of the report are not modelled. */
  method Debug(articles: seq<Doc<Article>>, sections: seq<Doc<Section>>) returns (r: Report)
    ensures r.articleCount == |articles| && r.sectionCount == |sections|
    ensures |r.sections| == |SectionKeys(sections)|
    ensures forall k :: 0 <= k < |r.sections| ==>
      var p := SectionKeys(sections)[k];
      && LastWith(sections, p).Some?
      && r.sections[k] == Entry(sections[LastWith(sections, p).value], Filed(articles, p))
    ensures r.orphanedArticles == Orphans(articles, SectionKeys(sections))
  {
    var order, keyed := MapSections(sections);
    var entries := FileArticles(articles, sections, order, keyed);
    var result := Values(order, entries);
    r := Report(|articles|, |sections|, result, Orphans(articles, order));
  }

  /** The number of articles filed under the given keys, key by key. */
  function FiledCount(articles: seq<Doc<Article>>, keys: seq<Option<int>>): nat {
    if keys == [] then 0 else |Filed(articles, keys[0])| + FiledCount(articles, keys[1..])
  }

  /** One more article is counted under the keys once when its section is a key, else not at all. */
  lemma {:induction false} FiledCountStep(articles: seq<Doc<Article>>, a: Doc<Article>, keys: seq<Option<int>>)
    requires DistinctKeys(keys)
    ensures FiledCount(articles + [a], keys)
      == FiledCount(articles, keys) + (if Some(a.data.section) in keys then 1 else 0)
  {
    var all := articles + [a];
    assert all[..|all| - 1] == articles;
    if keys != [] {
      assert DistinctKeys(keys[1..]) by {
        forall i, j | 0 <= i < j < |keys[1..]| ensures keys[1..][i] != keys[1..][j] {
          assert keys[1..][i] == keys[i + 1] && keys[1..][j] == keys[j + 1];
        }
      }
      FiledCountStep(articles, a, keys[1..]);
      assert Some(a.data.section) in keys <==> Some(a.data.section) == keys[0] || Some(a.data.section) in keys[1..] by {
        assert keys == [keys[0]] + keys[1..];
      }
      if Some(a.data.section) == keys[0] {
        assert keys[0] !in keys[1..] by {
          forall n | 0 <= n < |keys[1..]| ensures keys[1..][n] != keys[0] {
            assert keys[1..][n] == keys[n + 1];
          }
        }
      }
    }
  }

  /** The report accounts for every article exactly once: over the distinct
      keys, the section lists and the orphans together have one entry per article. */
  lemma {:induction false} Partition(articles: seq<Doc<Article>>, keys: seq<Option<int>>)
    requires DistinctKeys(keys)
    ensures FiledCount(articles, keys) + |Orphans(articles, keys)| == |articles|
  {
    if articles != [] {
      var init := articles[..|articles| - 1];
      var a := articles[|articles| - 1];
      assert articles == init + [a];
      Partition(init, keys);
      FiledCountStep(init, a, keys);
    } else {
      FiledCountZero(keys);
    }
  }

  lemma {:induction false} FiledCountZero(keys: seq<Option<int>>)
    ensures FiledCount([], keys) == 0
  {
    if keys != [] {
      FiledCountZero(keys[1..]);
    }
  }

  /** The partition for the report itself: its lists and orphans hold one entry per article. */
  lemma ReportPartition(articles: seq<Doc<Article>>, sections: seq<Doc<Section>>)
    ensures FiledCount(articles, SectionKeys(sections)) + |Orphans(articles, SectionKeys(sections))| == |articles|
    ensures |SectionKeys(sections)| <= |sections|
  {
    Partition(articles, SectionKeys(sections));
  }

  /** An article goes to the list of its own section number and nowhere else,
      or, when no section has that priority, to the orphans alone. */
  lemma ArticlePlaced(articles: seq<Doc<Article>>, sections: seq<Doc<Section>>, k: nat)
    requires k < |articles|
    ensures var keys := SectionKeys(sections);
      var x := Info(articles[k]);
      if Some(articles[k].data.section) in keys then
        && x in Filed(articles, Some(articles[k].data.section))
        && x !in Orphans(articles, keys)
        && forall p :: p != Some(articles[k].data.section) ==> x !in Filed(articles, p)
      else
        && x in Orphans(articles, keys)
        && forall p :: p in keys ==> x !in Filed(articles, p)
  {
  }

  /** Deleting a section leaves its articles as they are, so once the only
      section with a priority is gone, the articles filed under it are orphans. */
  lemma DeletedSectionOrphans(articles: seq<Doc<Article>>, sections: seq<Doc<Section>>, i: nat, k: nat)
    requires i < |sections| && k < |articles|
    requires forall n :: 0 <= n < |sections| && n != i ==> sections[n].data.priority != sections[i].data.priority
    requires Some(articles[k].data.section) == sections[i].data.priority
    ensures sections[i].data.priority in SectionKeys(sections)
    ensures Info(articles[k]) in Filed(articles, sections[i].data.priority)
    ensures Info(articles[k]) in Orphans(articles, SectionKeys(RemoveAt(sections, i)))
  {
    var p := sections[i].data.priority;
    var rest := RemoveAt(sections, i);
    SectionKeysMembers(sections);
    SectionKeysMembers(rest);
    RemoveAtIndex(sections, i);
    forall m | 0 <= m < |rest| ensures rest[m].data.priority != p {
      assert rest[m] == sections[if m < i then m else m + 1];
    }
  }
}
