/**
 * The resource id trees: a primary tree for the requested resources and,
 * hanging off any tree, one related tree per relationship name, created on
 * first use. Merging a fragment into a related tree also back-propagates the
 * fragment's identity into the nodes of its sources in the parent tree.
 *
 * The primary and the related tree are one class here, told apart by the
 * constant `kind` (and `source`, which only a related tree has), because a
 * related tree's source may be a tree of either kind.
 */
module IdTrees {
  import opened Identities
  import opened Fragments
  import opened Nodes

  /**
   * Every tree of `forest` keeps its registry invariant, and the registry of
   * every tree of `forest` holds trees of `forest` only.
   */
  ghost predicate ForestValid(forest: set<ResourceIdTree>)
    reads forest
  {
    forall t :: t in forest ==>
      && t.Valid()
      && forall name :: name in t.relatedTrees ==> t.relatedTrees[name] in forest
  }

  /** The fragments of a batch as values, in the order they are merged. */
  function Snapshots(fragments: seq<ResourceFragment>): (r: seq<FragmentData>)
    reads fragments
    ensures |r| == |fragments|
    ensures forall i :: 0 <= i < |fragments| ==> r[i] == fragments[i].Data()
  {
    seq(|fragments|, i requires 0 <= i < |fragments| reads fragments => fragments[i].Data())
  }

  class ResourceIdTree {
    /** `PrimaryTree`, or `RelatedTree(r)` for the tree of the parent relationship `r`. */
    const kind: TreeKind
    /** The tree whose nodes a related tree back-propagates into; null for the primary tree. */
    const source: ResourceIdTree?
    var resources: map<ResourceIdentity, Node>
    var relatedTrees: map<string, ResourceIdTree>

    /** Exactly a related tree has a source, and that source is another tree. */
    ghost predicate WellFormed()
    {
      (kind.PrimaryTree? <==> source == null) && source != this
    }

    /**
     * Each registry entry is a well-formed related tree whose source is this
     * tree and whose relationship has the entry's name; so no name maps to two
     * trees and no tree sits under two names.
     */
    ghost predicate Valid()
      reads this`relatedTrees
    {
      && WellFormed()
      && forall name :: name in relatedTrees ==>
           && relatedTrees[name].WellFormed()
           && relatedTrees[name].source == this
           && relatedTrees[name].kind.RelatedTree?
           && relatedTrees[name].kind.relationship.name == name
    }

    /** An empty primary tree. */
    constructor Primary()
      ensures Valid() && kind == PrimaryTree && source == null
      ensures resources == map[] && relatedTrees == map[]
    {
      kind := PrimaryTree;
      source := null;
      resources := map[];
      relatedTrees := map[];
    }

    /** An empty related tree for `parentRelationship`, linked back to `sourceTree`. */
    constructor Related(parentRelationship: Relationship, sourceTree: ResourceIdTree)
      ensures Valid() && kind == RelatedTree(parentRelationship) && source == sourceTree
      ensures resources == map[] && relatedTrees == map[]
    {
      kind := RelatedTree(parentRelationship);
      source := sourceTree;
      resources := map[];
      relatedTrees := map[];
    }

    /**
     * The related tree registered under `relationship.name`; when there is
     * none, a new empty one for `relationship`, with this tree as its source,
     * is registered first. No other entry and no node changes. `forest` is
     * the set of trees built so far; the returned tree joins it, and every
     * tree in it stays valid, so fetches can go on level by level.
     */
    method FetchRelatedResourceIdTree(relationship: Relationship, ghost forest: set<ResourceIdTree>)
      returns (tree: ResourceIdTree)
      requires this in forest && ForestValid(forest)
      modifies this`relatedTrees
      ensures ForestValid(forest + {tree})
      ensures Valid()
      ensures tree.WellFormed() && tree.source == this
      ensures tree.kind.RelatedTree? && tree.kind.relationship.name == relationship.name
      ensures relationship.name in old(relatedTrees) ==>
        tree == old(relatedTrees)[relationship.name] && relatedTrees == old(relatedTrees)
      ensures relationship.name !in old(relatedTrees) ==>
        && fresh(tree)
        && tree.kind == RelatedTree(relationship)
        && tree.resources == map[] && tree.relatedTrees == map[]
        && relatedTrees == old(relatedTrees)[relationship.name := tree]
    {
      if relationship.name !in relatedTrees {
        var created := new ResourceIdTree.Related(relationship, this);
        relatedTrees := relatedTrees[relationship.name := created];
      }
      tree := relatedTrees[relationship.name];
    }

    /**
     * Adds an empty bucket to `resource` for each included relationship
     * name that it has no bucket for; existing buckets are kept as they are.
     */
    static method InitIncludedRelationships(resource: Node, includeRelated: set<string>) returns (r: Node)
      ensures r.primary == resource.primary && r.cacheField == resource.cacheField
      ensures r.relationships == WithIncludedBuckets(resource.relationships, includeRelated)
    {
      r := resource;
      var pending := includeRelated;
      while pending != {}
        invariant pending <= includeRelated
        invariant r.primary == resource.primary && r.cacheField == resource.cacheField
        invariant r.relationships.Keys == resource.relationships.Keys + (includeRelated - pending)
        invariant forall name :: name in resource.relationships ==>
          r.relationships[name] == resource.relationships[name]
        invariant forall name :: name in r.relationships && name !in resource.relationships ==>
          r.relationships[name] == {}
        decreases pending
      {
        var name :| name in pending;
        if name !in r.relationships {
          r := r.(relationships := r.relationships[name := {}]);
        }
        pending := pending - {name};
      }
    }

    /**
     * Primary `add_resource_fragment`: writes the fragment's primary node,
     * replacing any earlier node for its identity.
     */
    method AddPrimaryResourceFragment(fragment: ResourceFragment, includeRelated: set<string>,
                                      caching: string -> bool)
      requires kind.PrimaryTree?
      modifies this`resources
      ensures resources == old(resources)[fragment.identity := NodeFor(kind, fragment.Data(), includeRelated, caching)]
    {
      var identity := fragment.identity;
      var resource := Node(true, NoCacheField, map[]);
      if caching(identity.resourceType) {
        resource := resource.(cacheField := CacheField(fragment.cache));
      }
      resource := InitIncludedRelationships(resource, includeRelated);
      resources := resources[identity := resource];
    }

    /** Primary `add_resource_fragments`: the fragments' nodes are written one after another. */
    method AddPrimaryResourceFragments(fragments: seq<ResourceFragment>, includeRelated: set<string>,
                                       caching: string -> bool)
      requires kind.PrimaryTree?
      modifies this`resources
      ensures resources == StoreFold(old(resources), Snapshots(fragments), kind, includeRelated, caching)
    {
      ghost var snapshots := Snapshots(fragments);
      for i := 0 to |fragments|
        invariant resources == StoreFold(old(resources), snapshots[..i], kind, includeRelated, caching)
      {
        AddPrimaryResourceFragment(fragments[i], includeRelated, caching);
        StoreFoldSnoc(old(resources), snapshots, i, kind, includeRelated, caching);
      }
      assert snapshots[..|fragments|] == snapshots;
    }

    /**
     * Related `add_resource_fragment`: writes the fragment's related node,
     * replacing any earlier node for its identity, and then adds the
     * fragment's identity to the parent-relationship bucket of each of its
     * sources in the source tree. A source without a node there makes the
     * merge fail (`ok` is false), after the related node has been written and
     * after the sources in `propagated` have been updated.
     */
    method AddRelatedResourceFragment(fragment: ResourceFragment, includeRelated: set<string>,
                                      caching: string -> bool)
      returns (ok: bool, ghost propagated: set<ResourceIdentity>)
      requires WellFormed() && kind.RelatedTree?
      modifies this`resources, source`resources
      ensures resources == old(resources)[fragment.identity := NodeFor(kind, fragment.Data(), includeRelated, caching)]
      ensures ok <==> fragment.relatedFrom <= old(source.resources).Keys
      ensures propagated <= fragment.relatedFrom && propagated <= old(source.resources).Keys
      ensures ok ==> propagated == fragment.relatedFrom
      ensures source.resources
           == BackPropagated(old(source.resources), propagated, kind.relationship.name, fragment.identity)
    {
      var identity := fragment.identity;
      var relatedFrom := fragment.relatedFrom;
      var resource := Node(false, NoCacheField, map[kind.relationship.inverseRelationship := relatedFrom]);
      if caching(identity.resourceType) {
        resource := resource.(cacheField := CacheField(fragment.cache));
      }
      resource := InitIncludedRelationships(resource, includeRelated);
      resources := resources[identity := resource];

      var name := kind.relationship.name;
      var pending := relatedFrom;
      propagated := {};
      while pending != {}
        invariant pending <= relatedFrom && propagated == relatedFrom - pending
        invariant propagated <= old(source.resources).Keys
        invariant source.resources == BackPropagated(old(source.resources), propagated, name, identity)
        invariant resources == old(resources)[identity := resource]
        decreases pending
      {
        var rid :| rid in pending;
        if rid !in source.resources {
          return false, propagated;
        }
        var sourceResource := source.resources[rid];
        var relationships := sourceResource.relationships;
        if name !in relationships {
          relationships := relationships[name := {}];
        }
        relationships := relationships[name := relationships[name] + {identity}];
        assert relationships == sourceResource.relationships[name := Rids(sourceResource, name) + {identity}];
        assert sourceResource == old(source.resources)[rid];
        BackPropagatedStep(old(source.resources), propagated, rid, name, identity);
        source.resources := source.resources[rid := sourceResource.(relationships := relationships)];
        pending := pending - {rid};
        propagated := propagated + {rid};
      }
      ok := true;
    }

    /**
     * Related `add_resource_fragments`: the fragments are merged one after
     * another until one names a source the source tree has no node for.
     * Success means every fragment's sources are in the source tree; the
     * trees are then the folds of the whole batch. On failure `failedAt` is
     * the first such fragment: the batch before it is merged, its own node is
     * written, and the sources in `propagated` have its identity.
     */
    method AddRelatedResourceFragments(fragments: seq<ResourceFragment>, includeRelated: set<string>,
                                       caching: string -> bool)
      returns (ok: bool, ghost failedAt: nat, ghost propagated: set<ResourceIdentity>)
      requires WellFormed() && kind.RelatedTree?
      modifies this`resources, source`resources
      ensures ok <==> forall i :: 0 <= i < |fragments| ==> fragments[i].relatedFrom <= old(source.resources).Keys
      ensures ok ==> resources == StoreFold(old(resources), Snapshots(fragments), kind, includeRelated, caching)
      ensures ok ==>
        source.resources == BackFold(old(source.resources), Snapshots(fragments), kind.relationship.name)
      ensures !ok ==>
        && failedAt < |fragments|
        && (forall i :: 0 <= i < failedAt ==> fragments[i].relatedFrom <= old(source.resources).Keys)
        && !(fragments[failedAt].relatedFrom <= old(source.resources).Keys)
        && resources == StoreFold(old(resources), Snapshots(fragments)[..failedAt + 1], kind, includeRelated, caching)
        && propagated < fragments[failedAt].relatedFrom
        && source.resources
           == BackPropagated(BackFold(old(source.resources), Snapshots(fragments)[..failedAt], kind.relationship.name),
                             propagated, kind.relationship.name, fragments[failedAt].identity)
    {
      ghost var snapshots := Snapshots(fragments);
      ghost var name := kind.relationship.name;
      ghost var sources0 := source.resources;
      failedAt, propagated := 0, {};
      for i := 0 to |fragments|
        invariant forall j :: 0 <= j < i ==> snapshots[j].relatedFrom <= sources0.Keys
        invariant resources == StoreFold(old(resources), snapshots[..i], kind, includeRelated, caching)
        invariant source.resources == BackFold(sources0, snapshots[..i], name)
      {
        BackFoldKeys(sources0, snapshots[..i], name);
        ghost var before := source.resources;
        var merged;
        merged, propagated := AddRelatedResourceFragment(fragments[i], includeRelated, caching);
        StoreFoldSnoc(old(resources), snapshots, i, kind, includeRelated, caching);
        BackFoldSnoc(sources0, snapshots, i, name);
        if !merged {
          assert snapshots == Snapshots(fragments);
          assert source.resources == BackPropagated(before, propagated, name, fragments[i].identity);
          return false, i, propagated;
        }
      }
      assert snapshots[..|fragments|] == snapshots;
      assert snapshots == Snapshots(fragments);
      ok := true;
    }
  }

  /** Back-propagating into one more source node is one more map update. */
  lemma BackPropagatedStep(resources: map<ResourceIdentity, Node>, done: set<ResourceIdentity>,
                           rid: ResourceIdentity, name: string, id: ResourceIdentity)
    requires rid in resources && rid !in done
    ensures BackPropagated(resources, done + {rid}, name, id)
         == BackPropagated(resources, done, name, id)[rid := WithLinks(resources[rid], name, {id})]
  {
  }
}
