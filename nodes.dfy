/**
 * The nodes an id tree stores, and the specification of what merging
 * fragments does to a tree's `resources`: the node written for a fragment,
 * the back-propagation of a new identity into the source tree's nodes, and
 * both folded over a batch of fragments.
 */
module Nodes {
  import opened Wrappers
  import opened Identities
  import opened Fragments

  /** Whether a node has a `cache_field` key, and the value under it (possibly nil). */
  datatype CacheField = NoCacheField | CacheField(value: Option<CacheValue>)

  /**
   * A resource node: `primary` is true exactly when the node carries
   * `primary: true`; `relationships` maps a relationship name to its set of
   * linked identities (the `rids` set).
   */
  datatype Node = Node(
    primary: bool,
    cacheField: CacheField,
    relationships: map<string, set<ResourceIdentity>>)

  /** Which of the two kinds of tree a node is merged into. */
  datatype TreeKind = PrimaryTree | RelatedTree(relationship: Relationship)

  /** The bucket under `name`, or the empty set when the node has none. */
  function Rids(node: Node, name: string): set<ResourceIdentity>
  {
    if name in node.relationships then node.relationships[name] else {}
  }

  /**
   * The relationships after an empty bucket is added for every included
   * relationship name that has none yet; buckets already present are kept.
   */
  function WithIncludedBuckets(relationships: map<string, set<ResourceIdentity>>, includeRelated: set<string>)
    : (r: map<string, set<ResourceIdentity>>)
    ensures r.Keys == relationships.Keys + includeRelated
    ensures forall name :: name in relationships ==> r[name] == relationships[name]
    ensures forall name :: name in includeRelated && name !in relationships ==> r[name] == {}
  {
    map name | name in relationships.Keys + includeRelated ::
      if name in relationships then relationships[name] else {}
  }

  /** The node `add_resource_fragment` writes for `fragment` into a tree of kind `kind`. */
  function NodeFor(kind: TreeKind, fragment: FragmentData, includeRelated: set<string>, caching: string -> bool)
    : Node
  {
    var cacheField :=
      if caching(fragment.identity.resourceType) then CacheField(fragment.cache) else NoCacheField;
    match kind
    case PrimaryTree =>
      Node(true, cacheField, WithIncludedBuckets(map[], includeRelated))
    case RelatedTree(relationship) =>
      Node(false, cacheField,
           WithIncludedBuckets(map[relationship.inverseRelationship := fragment.relatedFrom], includeRelated))
  }

  /**
   * A primary node is marked primary and has exactly the included
   * relationships, each with an empty bucket. A related node is not marked
   * primary, and its inverse-relationship bucket holds the fragment's sources
   * even when the inverse is also an included relationship. Either way the
   * node has a cache field, holding the fragment's cache value, exactly when
   * the resource type caches.
   */
  lemma NodeForShape(kind: TreeKind, fragment: FragmentData, includeRelated: set<string>, caching: string -> bool)
    ensures NodeFor(kind, fragment, includeRelated, caching).primary <==> kind.PrimaryTree?
    ensures NodeFor(kind, fragment, includeRelated, caching).cacheField.CacheField?
        <==> caching(fragment.identity.resourceType)
    ensures NodeFor(kind, fragment, includeRelated, caching).cacheField.CacheField? ==>
      NodeFor(kind, fragment, includeRelated, caching).cacheField.value == fragment.cache
    ensures kind.PrimaryTree? ==> NodeFor(kind, fragment, includeRelated, caching).relationships.Keys == includeRelated
    ensures kind.RelatedTree? ==>
      && NodeFor(kind, fragment, includeRelated, caching).relationships.Keys
         == includeRelated + {kind.relationship.inverseRelationship}
      && NodeFor(kind, fragment, includeRelated, caching).relationships[kind.relationship.inverseRelationship]
         == fragment.relatedFrom
    ensures forall name :: name in includeRelated ==>
      NodeFor(kind, fragment, includeRelated, caching).relationships[name]
        == if kind.RelatedTree? && name == kind.relationship.inverseRelationship then fragment.relatedFrom else {}
  {
  }

  /**
   * `node` with `ids` added to its `name` bucket, the bucket being created on
   * first use; the flags and every other bucket stay, and no ids means no change.
   */
  function WithLinks(node: Node, name: string, ids: set<ResourceIdentity>): (n: Node)
    ensures n.primary == node.primary && n.cacheField == node.cacheField
    ensures ids != {} ==>
      && n.relationships.Keys == node.relationships.Keys + {name}
      && n.relationships[name] == Rids(node, name) + ids
    ensures forall other :: other in node.relationships && other != name ==>
      other in n.relationships && n.relationships[other] == node.relationships[other]
    ensures ids == {} ==> n == node
  {
    if ids == {} then node
    else node.(relationships := node.relationships[name := Rids(node, name) + ids])
  }

  /**
   * A source tree's resources after `id` is back-propagated under `name` into
   * the node of every identity in `rids`: no node is created, and nodes
   * outside `rids` are left alone.
   */
  function BackPropagated(resources: map<ResourceIdentity, Node>, rids: set<ResourceIdentity>,
                          name: string, id: ResourceIdentity)
    : (r: map<ResourceIdentity, Node>)
    ensures r.Keys == resources.Keys
    ensures forall k :: k in resources && k !in rids ==> r[k] == resources[k]
    ensures forall k :: k in resources && k in rids ==> r[k] == WithLinks(resources[k], name, {id})
  {
    map k | k in resources :: if k in rids then WithLinks(resources[k], name, {id}) else resources[k]
  }

  /** A tree's resources after the nodes of `fragments` are written one after another. */
  function StoreFold(resources: map<ResourceIdentity, Node>, fragments: seq<FragmentData>, kind: TreeKind,
                     includeRelated: set<string>, caching: string -> bool)
    : map<ResourceIdentity, Node>
  {
    if fragments == [] then resources
    else
      var last := fragments[|fragments| - 1];
      StoreFold(resources, fragments[..|fragments| - 1], kind, includeRelated, caching)
        [last.identity := NodeFor(kind, last, includeRelated, caching)]
  }

  /** A source tree's resources after the fragments' identities are back-propagated in order. */
  function BackFold(resources: map<ResourceIdentity, Node>, fragments: seq<FragmentData>, name: string)
    : map<ResourceIdentity, Node>
  {
    if fragments == [] then resources
    else
      var last := fragments[|fragments| - 1];
      BackPropagated(BackFold(resources, fragments[..|fragments| - 1], name), last.relatedFrom, name, last.identity)
  }

  /** The identities of a batch of fragments. */
  function FragmentIdentities(fragments: seq<FragmentData>): set<ResourceIdentity>
  {
    set i | 0 <= i < |fragments| :: fragments[i].identity
  }

  /** The identities of the fragments of a batch that name `source` among their sources. */
  function LinkedFrom(fragments: seq<FragmentData>, source: ResourceIdentity): set<ResourceIdentity>
  {
    set i | 0 <= i < |fragments| && source in fragments[i].relatedFrom :: fragments[i].identity
  }

  /** `fragments[i]` is the last fragment of the batch with its identity. */
  predicate IsLast(fragments: seq<FragmentData>, i: int)
  {
    && 0 <= i < |fragments|
    && forall j :: i < j < |fragments| ==> fragments[j].identity != fragments[i].identity
  }

  /** Merging one more fragment of a batch writes one more node. */
  lemma StoreFoldSnoc(resources: map<ResourceIdentity, Node>, fragments: seq<FragmentData>, i: int, kind: TreeKind,
                      includeRelated: set<string>, caching: string -> bool)
    requires 0 <= i < |fragments|
    ensures StoreFold(resources, fragments[..i + 1], kind, includeRelated, caching)
         == StoreFold(resources, fragments[..i], kind, includeRelated, caching)
              [fragments[i].identity := NodeFor(kind, fragments[i], includeRelated, caching)]
  {
    assert fragments[..i + 1][..i] == fragments[..i];
  }

  /** Merging one more fragment of a batch back-propagates its identity into its sources. */
  lemma BackFoldSnoc(resources: map<ResourceIdentity, Node>, fragments: seq<FragmentData>, i: int, name: string)
    requires 0 <= i < |fragments|
    ensures BackFold(resources, fragments[..i + 1], name)
         == BackPropagated(BackFold(resources, fragments[..i], name), fragments[i].relatedFrom, name,
                           fragments[i].identity)
  {
    assert fragments[..i + 1][..i] == fragments[..i];
  }

  // ---------------------------------------------------------------------------
  // Back-propagation

  /** Adding two sets of links one after the other adds their union. */
  lemma WithLinksCompose(node: Node, name: string, a: set<ResourceIdentity>, b: set<ResourceIdentity>)
    ensures WithLinks(WithLinks(node, name, a), name, b) == WithLinks(node, name, a + b)
  {
    if a != {} && b != {} {
      var once := WithLinks(node, name, a);
      var all := Rids(node, name) + (a + b);
      assert Rids(once, name) + b == all;
      assert once.relationships[name := all] == node.relationships[name := all];
    } else if a == {} {
      assert a + b == b;
    } else {
      assert a + b == a;
    }
  }

  /** Extending a batch by one fragment adds that fragment's identity to the sources it names. */
  lemma LinkedFromSnoc(fragments: seq<FragmentData>, d: FragmentData, source: ResourceIdentity)
    ensures LinkedFrom(fragments + [d], source)
         == LinkedFrom(fragments, source) + (if source in d.relatedFrom then {d.identity} else {})
  {
    var ext := fragments + [d];
    forall x | x in LinkedFrom(fragments, source)
      ensures x in LinkedFrom(ext, source)
    {
      var i :| 0 <= i < |fragments| && source in fragments[i].relatedFrom && fragments[i].identity == x;
      assert ext[i] == fragments[i];
    }
    forall x | x in LinkedFrom(ext, source)
      ensures x in LinkedFrom(fragments, source) + (if source in d.relatedFrom then {d.identity} else {})
    {
      var i :| 0 <= i < |ext| && source in ext[i].relatedFrom && ext[i].identity == x;
      if i < |fragments| {
        assert ext[i] == fragments[i];
      }
    }
    if source in d.relatedFrom {
      assert ext[|fragments|] == d;
    }
  }

  /** Back-propagation never creates a node in the source tree. */
  lemma {:induction false} BackFoldKeys(resources: map<ResourceIdentity, Node>, fragments: seq<FragmentData>,
                                        name: string)
    ensures BackFold(resources, fragments, name).Keys == resources.Keys
  {
    if fragments != [] {
      BackFoldKeys(resources, fragments[..|fragments| - 1], name);
    }
  }

  /**
   * After back-propagating a batch, the node of `source` keeps its original
   * buckets and gains, in the `name` bucket, exactly the identities of the
   * fragments that name it among their sources.
   */
  lemma {:induction false} BackFoldAt(resources: map<ResourceIdentity, Node>, fragments: seq<FragmentData>,
                                      name: string, source: ResourceIdentity)
    requires source in resources
    ensures source in BackFold(resources, fragments, name)
    ensures BackFold(resources, fragments, name)[source]
         == WithLinks(resources[source], name, LinkedFrom(fragments, source))
  {
    if fragments == [] {
      assert LinkedFrom(fragments, source) == {};
    } else {
      var init := fragments[..|fragments| - 1];
      var last := fragments[|fragments| - 1];
      assert fragments == init + [last];
      BackFoldAt(resources, init, name, source);
      var prev := BackFold(resources, init, name);
      var links := LinkedFrom(init, source);
      LinkedFromSnoc(init, last, source);
      if source in last.relatedFrom {
        calc {
          BackFold(resources, fragments, name)[source];
          BackPropagated(prev, last.relatedFrom, name, last.identity)[source];
          WithLinks(WithLinks(resources[source], name, links), name, {last.identity});
          { WithLinksCompose(resources[source], name, links, {last.identity}); }
          WithLinks(resources[source], name, links + {last.identity});
        }
      } else {
        calc {
          BackFold(resources, fragments, name)[source];
          BackPropagated(prev, last.relatedFrom, name, last.identity)[source];
          WithLinks(resources[source], name, links);
          { assert LinkedFrom(fragments, source) == links; }
          WithLinks(resources[source], name, LinkedFrom(fragments, source));
        }
      }
    }
  }

  /** The whole source tree after back-propagating a batch, node by node. */
  lemma BackFoldClosedForm(resources: map<ResourceIdentity, Node>, fragments: seq<FragmentData>, name: string)
    ensures BackFold(resources, fragments, name).Keys == resources.Keys
    ensures forall k :: k in resources ==>
      BackFold(resources, fragments, name)[k] == WithLinks(resources[k], name, LinkedFrom(fragments, k))
  {
    BackFoldKeys(resources, fragments, name);
    forall k | k in resources
      ensures BackFold(resources, fragments, name)[k] == WithLinks(resources[k], name, LinkedFrom(fragments, k))
    {
      BackFoldAt(resources, fragments, name, k);
    }
  }

  /**
   * After back-propagating a batch, every source node a fragment names holds
   * that fragment's identity in its `name` bucket.
   */
  lemma BackFoldLinks(resources: map<ResourceIdentity, Node>, fragments: seq<FragmentData>, name: string)
    ensures BackFold(resources, fragments, name).Keys == resources.Keys
    ensures forall i, rid :: 0 <= i < |fragments| && rid in fragments[i].relatedFrom && rid in resources ==>
      && name in BackFold(resources, fragments, name)[rid].relationships
      && fragments[i].identity in BackFold(resources, fragments, name)[rid].relationships[name]
  {
    BackFoldClosedForm(resources, fragments, name);
    forall i, rid | 0 <= i < |fragments| && rid in fragments[i].relatedFrom && rid in resources
      ensures fragments[i].identity in LinkedFrom(fragments, rid)
    {
    }
  }

  /**
   * The order of a batch does not matter to the source tree: two batches made
   * of the same fragments back-propagate to the same resources.
   */
  lemma BackFoldOrderIrrelevant(resources: map<ResourceIdentity, Node>, a: seq<FragmentData>, b: seq<FragmentData>,
                                name: string)
    requires forall d :: d in a <==> d in b
    ensures BackFold(resources, a, name) == BackFold(resources, b, name)
  {
    BackFoldClosedForm(resources, a, name);
    BackFoldClosedForm(resources, b, name);
    forall k | k in resources
      ensures LinkedFrom(a, k) == LinkedFrom(b, k)
    {
      LinkedFromSame(a, b, k);
      LinkedFromSame(b, a, k);
    }
  }

  lemma LinkedFromSame(a: seq<FragmentData>, b: seq<FragmentData>, source: ResourceIdentity)
    requires forall d :: d in a ==> d in b
    ensures LinkedFrom(a, source) <= LinkedFrom(b, source)
  {
    forall x | x in LinkedFrom(a, source)
      ensures x in LinkedFrom(b, source)
    {
      var i :| 0 <= i < |a| && source in a[i].relatedFrom && a[i].identity == x;
      assert a[i] in b;
      var j :| 0 <= j < |b| && b[j] == a[i];
    }
  }

  /**
   * Back-propagating the same batch a second time changes nothing: the
   * buckets are sets, so no link is duplicated.
   */
  lemma BackFoldIdempotent(resources: map<ResourceIdentity, Node>, fragments: seq<FragmentData>, name: string)
    ensures BackFold(BackFold(resources, fragments, name), fragments, name) == BackFold(resources, fragments, name)
  {
    var once := BackFold(resources, fragments, name);
    BackFoldClosedForm(resources, fragments, name);
    BackFoldClosedForm(once, fragments, name);
    forall k | k in resources
      ensures BackFold(once, fragments, name)[k] == once[k]
    {
      var links := LinkedFrom(fragments, k);
      WithLinksCompose(resources[k], name, links, links);
      assert links + links == links;
    }
  }

  /**
   * Back-propagating the same identity into the same sources twice changes
   * nothing the second time: the bucket is a set, so it does not grow.
   */
  lemma BackPropagatedIdempotent(resources: map<ResourceIdentity, Node>, rids: set<ResourceIdentity>,
                                 name: string, id: ResourceIdentity)
    ensures BackPropagated(BackPropagated(resources, rids, name, id), rids, name, id)
         == BackPropagated(resources, rids, name, id)
  {
    var once := BackPropagated(resources, rids, name, id);
    forall k | k in resources && k in rids
      ensures WithLinks(once[k], name, {id}) == once[k]
    {
      WithLinksCompose(resources[k], name, {id}, {id});
      assert {id} + {id} == {id};
    }
  }

  // ---------------------------------------------------------------------------
  // Storing nodes

  /** Every identity of a batch has a last fragment in it. */
  lemma {:induction false} LastExists(fragments: seq<FragmentData>, k: ResourceIdentity)
    requires k in FragmentIdentities(fragments)
    ensures exists i :: IsLast(fragments, i) && fragments[i].identity == k
  {
    var i :| 0 <= i < |fragments| && fragments[i].identity == k;
    if !IsLast(fragments, i) {
      var j :| i < j < |fragments| && fragments[j].identity == k;
      var rest := fragments[j..];
      assert rest[0].identity == k;
      LastExists(rest, k);
      var m :| IsLast(rest, m) && rest[m].identity == k;
      assert IsLast(fragments, j + m) by {
        forall n | j + m < n < |fragments|
          ensures fragments[n].identity != k
        {
          assert fragments[n] == rest[n - j];
        }
      }
    }
  }

  /** The identities of a batch extended by one fragment. */
  lemma FragmentIdentitiesSnoc(fragments: seq<FragmentData>, d: FragmentData)
    ensures FragmentIdentities(fragments + [d]) == FragmentIdentities(fragments) + {d.identity}
  {
    var ext := fragments + [d];
    forall x | x in FragmentIdentities(ext)
      ensures x in FragmentIdentities(fragments) + {d.identity}
    {
      var i :| 0 <= i < |ext| && ext[i].identity == x;
      if i < |fragments| {
        assert ext[i] == fragments[i];
      }
    }
    forall x | x in FragmentIdentities(fragments)
      ensures x in FragmentIdentities(ext)
    {
      var i :| 0 <= i < |fragments| && fragments[i].identity == x;
      assert ext[i] == fragments[i];
    }
    assert ext[|fragments|] == d;
  }

  /** Storing a batch adds exactly the batch's identities to the tree. */
  lemma {:induction false} StoreFoldKeys(resources: map<ResourceIdentity, Node>, fragments: seq<FragmentData>,
                                         kind: TreeKind, includeRelated: set<string>, caching: string -> bool)
    ensures StoreFold(resources, fragments, kind, includeRelated, caching).Keys
         == resources.Keys + FragmentIdentities(fragments)
  {
    if fragments != [] {
      var init := fragments[..|fragments| - 1];
      var last := fragments[|fragments| - 1];
      assert fragments == init + [last];
      StoreFoldKeys(resources, init, kind, includeRelated, caching);
      FragmentIdentitiesSnoc(init, last);
    }
  }

  /** Storing a batch leaves the node of every identity outside the batch alone. */
  lemma {:induction false} StoreFoldUntouched(resources: map<ResourceIdentity, Node>, fragments: seq<FragmentData>,
                                              kind: TreeKind, includeRelated: set<string>, caching: string -> bool,
                                              k: ResourceIdentity)
    requires k in resources && k !in FragmentIdentities(fragments)
    ensures k in StoreFold(resources, fragments, kind, includeRelated, caching)
    ensures StoreFold(resources, fragments, kind, includeRelated, caching)[k] == resources[k]
  {
    if fragments != [] {
      var init := fragments[..|fragments| - 1];
      var last := fragments[|fragments| - 1];
      assert fragments == init + [last];
      FragmentIdentitiesSnoc(init, last);
      StoreFoldUntouched(resources, init, kind, includeRelated, caching, k);
    }
  }

  /**
   * For a repeated identity the last fragment of the batch wins: its node
   * replaces any earlier node wholesale.
   */
  lemma {:induction false} StoreFoldLast(resources: map<ResourceIdentity, Node>, fragments: seq<FragmentData>,
                                         kind: TreeKind, includeRelated: set<string>, caching: string -> bool, i: int)
    requires IsLast(fragments, i)
    ensures fragments[i].identity in StoreFold(resources, fragments, kind, includeRelated, caching)
    ensures StoreFold(resources, fragments, kind, includeRelated, caching)[fragments[i].identity]
         == NodeFor(kind, fragments[i], includeRelated, caching)
  {
    var init := fragments[..|fragments| - 1];
    if i < |init| {
      assert IsLast(init, i);
      StoreFoldLast(resources, init, kind, includeRelated, caching, i);
    }
  }

  /**
   * Storing a batch adds exactly the batch's identities, leaves every other
   * node alone, and the last fragment of each identity decides its node.
   */
  lemma StoreFoldClosedForm(resources: map<ResourceIdentity, Node>, fragments: seq<FragmentData>,
                            kind: TreeKind, includeRelated: set<string>, caching: string -> bool)
    ensures StoreFold(resources, fragments, kind, includeRelated, caching).Keys
         == resources.Keys + FragmentIdentities(fragments)
    ensures forall k :: k in resources && k !in FragmentIdentities(fragments) ==>
      StoreFold(resources, fragments, kind, includeRelated, caching)[k] == resources[k]
    ensures forall i :: IsLast(fragments, i) ==>
      StoreFold(resources, fragments, kind, includeRelated, caching)[fragments[i].identity]
        == NodeFor(kind, fragments[i], includeRelated, caching)
  {
    StoreFoldKeys(resources, fragments, kind, includeRelated, caching);
    forall k | k in resources && k !in FragmentIdentities(fragments)
      ensures StoreFold(resources, fragments, kind, includeRelated, caching)[k] == resources[k]
    {
      StoreFoldUntouched(resources, fragments, kind, includeRelated, caching, k);
    }
    forall i | IsLast(fragments, i)
      ensures StoreFold(resources, fragments, kind, includeRelated, caching)[fragments[i].identity]
           == NodeFor(kind, fragments[i], includeRelated, caching)
    {
      StoreFoldLast(resources, fragments, kind, includeRelated, caching, i);
    }
  }

  /** Each node a batch stores is primary exactly when the tree is the primary tree. */
  lemma StoreFoldPrimaryFlag(resources: map<ResourceIdentity, Node>, fragments: seq<FragmentData>, kind: TreeKind,
                             includeRelated: set<string>, caching: string -> bool)
    ensures StoreFold(resources, fragments, kind, includeRelated, caching).Keys
         == resources.Keys + FragmentIdentities(fragments)
    ensures forall k :: k in FragmentIdentities(fragments) ==>
      StoreFold(resources, fragments, kind, includeRelated, caching)[k].primary == kind.PrimaryTree?
  {
    StoreFoldClosedForm(resources, fragments, kind, includeRelated, caching);
    forall k | k in FragmentIdentities(fragments)
      ensures StoreFold(resources, fragments, kind, includeRelated, caching)[k].primary == kind.PrimaryTree?
    {
      LastExists(fragments, k);
    }
  }

  /** Storing the same batch a second time changes nothing. */
  lemma StoreFoldIdempotent(resources: map<ResourceIdentity, Node>, fragments: seq<FragmentData>, kind: TreeKind,
                            includeRelated: set<string>, caching: string -> bool)
    ensures StoreFold(StoreFold(resources, fragments, kind, includeRelated, caching), fragments, kind, includeRelated, caching)
         == StoreFold(resources, fragments, kind, includeRelated, caching)
  {
    var once := StoreFold(resources, fragments, kind, includeRelated, caching);
    var twice := StoreFold(once, fragments, kind, includeRelated, caching);
    StoreFoldClosedForm(resources, fragments, kind, includeRelated, caching);
    StoreFoldClosedForm(once, fragments, kind, includeRelated, caching);
    forall k | k in once
      ensures twice[k] == once[k]
    {
      if k in FragmentIdentities(fragments) {
        LastExists(fragments, k);
      }
    }
  }

  // ---------------------------------------------------------------------------
  // Both directions of a link

  /**
   * After a related batch whose sources all have nodes in the source tree,
   * every link is recorded in both directions: the node each fragment last
   * wrote has every source of that fragment in its inverse-relationship
   * bucket, and each of those source nodes has the fragment's identity in its
   * parent-relationship bucket.
   */
  lemma RelatedBatchLinksBothWays(resources: map<ResourceIdentity, Node>, sources: map<ResourceIdentity, Node>,
                                  fragments: seq<FragmentData>, relationship: Relationship,
                                  includeRelated: set<string>, caching: string -> bool)
    requires forall i :: 0 <= i < |fragments| ==> fragments[i].relatedFrom <= sources.Keys
    ensures forall i, rid :: IsLast(fragments, i) && rid in fragments[i].relatedFrom ==>
      && fragments[i].identity in StoreFold(resources, fragments, RelatedTree(relationship), includeRelated, caching)
      && rid in Rids(StoreFold(resources, fragments, RelatedTree(relationship), includeRelated, caching)
                       [fragments[i].identity], relationship.inverseRelationship)
      && rid in BackFold(sources, fragments, relationship.name)
      && fragments[i].identity in Rids(BackFold(sources, fragments, relationship.name)[rid], relationship.name)
  {
    var kind := RelatedTree(relationship);
    BackFoldLinks(sources, fragments, relationship.name);
    forall i | IsLast(fragments, i)
      ensures fragments[i].identity in StoreFold(resources, fragments, kind, includeRelated, caching)
      ensures Rids(StoreFold(resources, fragments, kind, includeRelated, caching)[fragments[i].identity],
                   relationship.inverseRelationship) == fragments[i].relatedFrom
    {
      StoreFoldLast(resources, fragments, kind, includeRelated, caching, i);
      NodeForShape(kind, fragments[i], includeRelated, caching);
    }
  }
}
