/**
 * Small clients of the id trees that build the include graph of an article
 * and its comments, and what their contracts let a caller conclude.
 */
module Scenarios {
  import opened Wrappers
  import opened Identities
  import opened Fragments
  import opened Nodes
  import opened IdTrees

  const Article := ResourceIdentity("articles", "1")
  const Comment := ResourceIdentity("comments", "9")
  /** The `comments` relationship of an article; its inverse on a comment is `article`. */
  const Comments := Relationship("comments", "article")

  /**
   * An article merged into the primary tree, with `comments` included: its
   * node is primary, has one empty `comments` bucket, and has a cache field
   * holding the fragment's cache value exactly when articles cache.
   */
  method ArticleTree(caching: string -> bool, articleCache: CacheValue) returns (primary: ResourceIdTree)
    ensures fresh(primary) && primary.Valid() && primary.kind == PrimaryTree && primary.relatedTrees == map[]
    ensures primary.resources.Keys == {Article} && primary.resources[Article].primary
    ensures primary.resources[Article].relationships.Keys == {"comments"}
    ensures primary.resources[Article].relationships["comments"] == {}
    ensures primary.resources[Article].cacheField
         == if caching("articles") then CacheField(Some(articleCache)) else NoCacheField
  {
    primary := new ResourceIdTree.Primary();
    var article := new ResourceFragment(Article);
    article.SetCache(Some(articleCache));
    primary.AddPrimaryResourceFragment(article, {"comments"}, caching);
    NodeForShape(PrimaryTree, article.Data(), {"comments"}, caching);
  }

  /**
   * One comment of that article merged into the `comments` tree: the link is
   * recorded in both directions, the comment is not primary, and the
   * article's cache field is untouched.
   */
  method ArticleWithComment(caching: string -> bool, articleCache: CacheValue)
    returns (primary: ResourceIdTree, comments: ResourceIdTree)
    ensures fresh(primary) && fresh(comments) && comments.source == primary
    ensures primary.resources.Keys == {Article} && comments.resources.Keys == {Comment}
    ensures primary.resources[Article].primary && !comments.resources[Comment].primary
    ensures primary.resources[Article].relationships.Keys == {"comments"}
    ensures primary.resources[Article].relationships["comments"] == {Comment}
    ensures comments.resources[Comment].relationships.Keys == {"article"}
    ensures comments.resources[Comment].relationships["article"] == {Article}
    ensures primary.resources[Article].cacheField
         == if caching("articles") then CacheField(Some(articleCache)) else NoCacheField
    ensures comments.resources[Comment].cacheField == if caching("comments") then CacheField(None) else NoCacheField
  {
    primary := ArticleTree(caching, articleCache);
    ghost var articleNode := primary.resources[Article];
    comments := primary.FetchRelatedResourceIdTree(Comments, {primary});
    var comment := new ResourceFragment(Comment);
    comment.AddRelatedFrom(Article);
    var ok;
    ghost var propagated;
    ok, propagated := comments.AddRelatedResourceFragment(comment, {}, caching);
    NodeForShape(RelatedTree(Comments), comment.Data(), {}, caching);
    assert ok && propagated == {Article};
    assert primary.resources == map[Article := WithLinks(articleNode, "comments", {Comment})];
  }

  /**
   * Fetching the related tree for two relationships of the same name gives
   * the same tree, and registers nothing else.
   */
  method FetchTwice(tree: ResourceIdTree, first: Relationship, second: Relationship, ghost forest: set<ResourceIdTree>)
    returns (firstTree: ResourceIdTree, secondTree: ResourceIdTree)
    requires tree in forest && ForestValid(forest) && first.name == second.name
    modifies tree`relatedTrees
    ensures firstTree == secondTree
    ensures tree.relatedTrees.Keys == old(tree.relatedTrees).Keys + {first.name}
  {
    firstTree := tree.FetchRelatedResourceIdTree(first, forest);
    secondTree := tree.FetchRelatedResourceIdTree(second, forest + {firstTree});
  }

  /**
   * Two relationships of different names get two different trees, each
   * registered under its own name and each with this tree as its source.
   */
  method FanOut(tree: ResourceIdTree, first: Relationship, second: Relationship, ghost forest: set<ResourceIdTree>)
    returns (firstTree: ResourceIdTree, secondTree: ResourceIdTree)
    requires tree in forest && ForestValid(forest) && first.name != second.name
    modifies tree`relatedTrees
    ensures firstTree != secondTree
    ensures firstTree.source == tree && secondTree.source == tree
    ensures first.name in tree.relatedTrees && tree.relatedTrees[first.name] == firstTree
    ensures second.name in tree.relatedTrees && tree.relatedTrees[second.name] == secondTree
  {
    firstTree := tree.FetchRelatedResourceIdTree(first, forest);
    secondTree := tree.FetchRelatedResourceIdTree(second, forest + {firstTree});
  }

  /**
   * A nested include such as `comments.author`: the second level is fetched
   * from the tree the first fetch returned, whether that tree was already
   * registered or not, and each level's tree has the level above as source.
   */
  method NestedFetch(tree: ResourceIdTree, outer: Relationship, inner: Relationship, ghost forest: set<ResourceIdTree>)
    returns (child: ResourceIdTree, grandchild: ResourceIdTree)
    requires tree in forest && ForestValid(forest)
    modifies tree`relatedTrees, set t | t in forest :: t`relatedTrees
    ensures child.source == tree && grandchild.source == child
    ensures child.kind.RelatedTree? && child.kind.relationship.name == outer.name
    ensures grandchild.kind.RelatedTree? && grandchild.kind.relationship.name == inner.name
    ensures grandchild.WellFormed() && outer.name in tree.relatedTrees && inner.name in child.relatedTrees
    ensures tree.relatedTrees[outer.name] == child && child.relatedTrees[inner.name] == grandchild
  {
    child := tree.FetchRelatedResourceIdTree(outer, forest);
    grandchild := child.FetchRelatedResourceIdTree(inner, forest + {child});
  }

  /**
   * Merging the same related fragment twice leaves both trees as one merge
   * leaves them: no link is duplicated in the source tree.
   */
  method MergeTwice(tree: ResourceIdTree, fragment: ResourceFragment, includeRelated: set<string>,
                    caching: string -> bool)
    returns (firstOk: bool, secondOk: bool)
    requires tree.WellFormed() && tree.kind.RelatedTree?
    modifies tree`resources, tree.source`resources
    ensures firstOk == secondOk
    ensures tree.resources
         == old(tree.resources)[fragment.identity := NodeFor(tree.kind, fragment.Data(), includeRelated, caching)]
    ensures firstOk ==>
      tree.source.resources
        == BackPropagated(old(tree.source.resources), fragment.relatedFrom, tree.kind.relationship.name,
                          fragment.identity)
  {
    var name := tree.kind.relationship.name;
    ghost var sources0 := tree.source.resources;
    ghost var propagated;
    firstOk, propagated := tree.AddRelatedResourceFragment(fragment, includeRelated, caching);
    secondOk, propagated := tree.AddRelatedResourceFragment(fragment, includeRelated, caching);
    if firstOk {
      BackPropagatedIdempotent(sources0, fragment.relatedFrom, name, fragment.identity);
    }
  }

  /**
   * A comment whose article is not in the primary tree: the merge fails, but
   * only after the comment's node has been written into the related tree;
   * the primary tree gets no node.
   */
  method CommentBeforeArticle(caching: string -> bool) returns (primary: ResourceIdTree, comments: ResourceIdTree, ok: bool)
    ensures !ok
    ensures Comment in comments.resources && !comments.resources[Comment].primary
    ensures primary.resources == map[]
  {
    primary := new ResourceIdTree.Primary();
    comments := primary.FetchRelatedResourceIdTree(Comments, {primary});
    var comment := new ResourceFragment(Comment);
    comment.AddRelatedFrom(Article);
    ghost var propagated;
    ok, propagated := comments.AddRelatedResourceFragment(comment, {}, caching);
  }
}
