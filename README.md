# Resource id trees and resource fragments

A model of the two in-memory structures that jsonapi-resources uses to build
the include graph of a request:

- **Resource fragments** (`Fragments`): a resource identity with the partial
  data a fetch produced for it. The identity is fixed. The cache value is
  last-write-wins. Attributes are overwritten by name. Related identities are
  kept in append-only lists, grouped by relationship name. The fragment also
  carries the set of identities it was reached from (`relatedFrom`), which
  the id trees read.
- **Resource id trees** (`IdTrees`): a primary tree holds the requested
  resources. Any tree has a registry of related trees, one per relationship
  name, created on first use. Each tree maps an identity to a node (`Nodes`).
  A node has a `primary` flag, an optional cache field, and one set of linked
  identities per relationship name. Merging a fragment into a related tree
  writes its node, with the fragment's sources under the inverse
  relationship. It then back-propagates the fragment's identity into the
  parent-relationship bucket of each source node in the source tree.

The trees are one class, `ResourceIdTree`. It is told apart by the constant
`kind`: `PrimaryTree`, or `RelatedTree(r)` for the tree of parent
relationship `r`. The constant `source` is the tree a related tree
back-propagates into. The methods update the `resources` and `relatedTrees`
maps in place, and a related merge also updates `source.resources`. Each
method is proved against value-level specifications in `Nodes`:

- `NodeFor`: the node written for one fragment.
- `BackPropagated`: one back-propagation.
- `StoreFold` and `BackFold`: those two folded over a batch.

Lemmas give closed forms for the folds and prove the links in both
directions, idempotence, and independence from the order of the batch.
`Scenarios` holds small clients (an article and its comments) whose
contracts show what a caller can conclude.

Whether a resource type caches (`resource_klass.caching?`) is a parameter
`caching: string -> bool` on the resource type. Cache values and attribute
values are opaque types.

Two behaviours of the code differ from what an earlier description of these
trees says; the model follows the code:

- Merging a fragment whose identity already has a node replaces the whole
  node, where that description keeps the existing node and refreshes only
  its cache token.
- A related merge with a source missing from the source tree fails only after
  it has stored its own node and updated the sources visited before the
  missing one, where that description has a failed merge abort with a
  consistency error and leave no node for the fragment's identity.

## Model

| member | source | states |
|---|---|---|
| Fragments.ResourceFragment.constructor | lib/jsonapi/resource_fragment.rb:13-18 | a new fragment has the given identity, no cache value, no attributes, no related lists (and no sources) |
| Fragments.ResourceFragment.SetCache | lib/jsonapi/resource_fragment.rb:20-22 | the cache becomes the argument (last write wins); attributes, related lists and sources are unchanged; the identity is a constant |
| Fragments.ResourceFragment.AddAttribute | lib/jsonapi/resource_fragment.rb:24-26 | the attribute map gets `name := value`, overwriting an earlier value; other attributes and fields are unchanged |
| Fragments.ResourceFragment.AddRelated | lib/jsonapi/resource_fragment.rb:28-31 | the related map becomes `AppendRelated` of the old one; no other field changes |
| Fragments.AppendRelated | lib/jsonapi/resource_fragment.rb:28-31 | the list under the name (empty when absent) grows by exactly one element at its end: the old list is its prefix, the new last element is the id, its multiset grows by the id (duplicates kept); the keys gain the name and every other list is unchanged |
| Fragments.ResourceFragment.AddRelatedFrom | lib/jsonapi/resource_id_tree.rb:112 | a stand-in for filling `related_from`, which lib/jsonapi/resource_fragment.rb does not define (first line under "Left out"); the cited line is where the trees read it. The set gains one identity, with set semantics; no other field changes |
| IdTrees.ResourceIdTree.Primary | lib/jsonapi/resource_id_tree.rb:32-35 | a new primary tree is valid, has no source, no resources and no related trees |
| IdTrees.ResourceIdTree.Related | lib/jsonapi/resource_id_tree.rb:80-87 | a new related tree is valid, is of kind `RelatedTree(parentRelationship)`, has the given source tree, no resources and no related trees |
| IdTrees.ResourceIdTree.FetchRelatedResourceIdTree | lib/jsonapi/resource_id_tree.rb:15-18 | with the name registered, returns that tree and leaves the registry unchanged; otherwise registers and returns a fresh empty tree of kind `RelatedTree(relationship)` whose source is this tree, and no other entry changes; the registry invariant `Valid` (entries are related trees with this source, named by their relationship) is kept, and so is `ForestValid` over the set of trees built so far, which the returned tree joins, so a fetch on a returned tree is again valid at any depth |
| IdTrees.ResourceIdTree.InitIncludedRelationships | lib/jsonapi/resource_id_tree.rb:22-26 | the loop over the included names leaves flags and cache field unchanged and yields exactly `WithIncludedBuckets` of the old relationships |
| Nodes.WithIncludedBuckets | lib/jsonapi/resource_id_tree.rb:22-26 | the keys become the old keys plus the included names; existing buckets keep their ids; only missing included buckets are added, empty |
| IdTrees.ResourceIdTree.AddPrimaryResourceFragment | lib/jsonapi/resource_id_tree.rb:55-66 | the only change to `resources` is the fragment's identity mapped to `NodeFor(PrimaryTree, …)`, replacing an earlier node; all other identities are unchanged |
| Nodes.NodeFor | lib/jsonapi/resource_id_tree.rb:108-122 | definition of the node either add writes (the primary one at lines 56-63); what it promises is stated by `NodeForShape` |
| Nodes.NodeForShape | lib/jsonapi/resource_id_tree.rb:107-122 | the node is primary iff it is merged into the primary tree (lines 57 and 109); it has a cache field iff the type caches, holding the fragment's cache; a primary node's buckets are exactly the included names, each empty; a related node's buckets are the included names plus the inverse relationship, which holds the fragment's sources even when it is also included |
| IdTrees.ResourceIdTree.AddPrimaryResourceFragments | lib/jsonapi/resource_id_tree.rb:43-47 | the loop leaves `resources` equal to `StoreFold` of the old resources over the batch in order |
| IdTrees.ResourceIdTree.AddRelatedResourceFragment | lib/jsonapi/resource_id_tree.rb:107-130 | writes the related node for the fragment first; succeeds iff every source has a node in the source tree; on success the source tree is `BackPropagated` over all sources; on failure over a proper subset of them that lies in the source tree; the source tree gains no node |
| Nodes.StoreFold | lib/jsonapi/resource_id_tree.rb:43-47 | definition of the batch loops' effect on `resources` (also lines 95-99): the fragments' nodes written in order; what it promises is stated by the `StoreFold…` lemmas |
| Nodes.BackFold | lib/jsonapi/resource_id_tree.rb:95-99 | definition of a related batch's effect on the source tree: each fragment back-propagated (lines 125-129) in order; what it promises is stated by the `BackFold…` lemmas |
| Nodes.WithLinks | lib/jsonapi/resource_id_tree.rb:127-128 | adding ids to a bucket creates it when missing and unions into it; flags, cache field and every other bucket are unchanged; adding nothing changes nothing |
| Nodes.BackPropagated | lib/jsonapi/resource_id_tree.rb:125-129 | no source node is created; the nodes named by the sources get the identity in their parent-relationship bucket; every other node is unchanged |
| Nodes.WithLinksCompose | lib/jsonapi/resource_id_tree.rb:128 | adding two sets of ids one after another equals adding their union |
| Nodes.BackPropagatedIdempotent | lib/jsonapi/resource_id_tree.rb:125-129 | back-propagating the same identity into the same sources twice gives the same tree as once (set semantics, no duplicates) |
| IdTrees.ResourceIdTree.AddRelatedResourceFragments | lib/jsonapi/resource_id_tree.rb:95-99 | succeeds iff every fragment's sources are in the source tree, and then the trees are `StoreFold` and `BackFold` of the batch; on failure it names the first bad fragment, leaves the prefix up to and including it stored, and the source tree is the prefix's `BackFold` plus a partial back-propagation of the bad fragment |
| Nodes.StoreFoldSnoc | lib/jsonapi/resource_id_tree.rb:44-46 | loop helper: unfolds `StoreFold` by one fragment for the batch loops' invariant |
| Nodes.BackFoldSnoc | lib/jsonapi/resource_id_tree.rb:96-97 | loop helper: unfolds `BackFold` by one fragment for the related batch loop's invariant |
| Nodes.StoreFoldKeys | lib/jsonapi/resource_id_tree.rb:44-46 | after a batch, the tree's identities are the old ones plus the batch's |
| Nodes.StoreFoldUntouched | lib/jsonapi/resource_id_tree.rb:44-46 | an identity outside the batch keeps its node |
| Nodes.StoreFoldLast | lib/jsonapi/resource_id_tree.rb:44-46 | an identity in the batch holds the node of its last fragment (the last write wins) |
| Nodes.StoreFoldClosedForm | lib/jsonapi/resource_id_tree.rb:44-46 | the three facts above together, for every identity |
| Nodes.StoreFoldPrimaryFlag | lib/jsonapi/resource_id_tree.rb:43-47 | after a batch, every batch identity's node is primary iff the tree is the primary tree |
| Nodes.StoreFoldIdempotent | lib/jsonapi/resource_id_tree.rb:43-47 | storing the same batch twice leaves the tree as storing it once |
| Nodes.BackFoldKeys | lib/jsonapi/resource_id_tree.rb:95-99 | back-propagating a batch creates no node in the source tree |
| Nodes.BackFoldAt | lib/jsonapi/resource_id_tree.rb:95-99 | after a batch, a source node has gained exactly the identities of the batch's fragments that name it (`LinkedFrom`) |
| Nodes.BackFoldClosedForm | lib/jsonapi/resource_id_tree.rb:95-99 | the same for every node of the source tree at once |
| Nodes.BackFoldLinks | lib/jsonapi/resource_id_tree.rb:95-99 | every fragment's identity is in the parent-relationship bucket of each of its sources that the source tree has |
| Nodes.BackFoldOrderIrrelevant | lib/jsonapi/resource_id_tree.rb:96 | two batches with the same fragments, in any order or multiplicity, leave the same source tree |
| Nodes.BackFoldIdempotent | lib/jsonapi/resource_id_tree.rb:95-99 | back-propagating the same batch twice leaves the source tree as doing it once |
| Nodes.RelatedBatchLinksBothWays | lib/jsonapi/resource_id_tree.rb:107-129 | after a related batch whose sources all exist, each surviving fragment's node lists the source under the inverse relationship, and the source's node lists the fragment under the parent relationship |
| IdTrees.BackPropagatedStep | lib/jsonapi/resource_id_tree.rb:126-128 | loop helper: unfolds `BackPropagated` by one source for the back-propagation loop's invariant |
| Scenarios.ArticleTree | lib/jsonapi/resource_id_tree.rb:55-66 | an article merged into a new primary tree with `comments` included: one primary node, one empty `comments` bucket, cache field iff articles cache |
| Scenarios.ArticleWithComment | lib/jsonapi/resource_id_tree.rb:107-130 | one comment of that article merged into the `comments` tree: the article lists the comment under `comments`, the comment lists the article under `article`, the comment is not primary, the article's cache field is unchanged |
| Scenarios.FetchTwice | lib/jsonapi/resource_id_tree.rb:15-18 | two fetches with the same relationship name return the identical tree; the registry gains only that name |
| Scenarios.NestedFetch | lib/jsonapi/resource_id_tree.rb:15-18 | a nested include fetched level by level (`comments.author`): whether each level was registered or new, the second level's tree has the first as source, and each returned tree is the one registered under its name in the level above |
| Scenarios.FanOut | lib/jsonapi/resource_id_tree.rb:15-18 | two different names give two different trees, each registered under its own name with this tree as source |
| Scenarios.MergeTwice | lib/jsonapi/resource_id_tree.rb:122-129 | merging the same related fragment twice succeeds or fails both times; the node write is the same as one merge, and on success the source tree is as after one back-propagation |
| Scenarios.CommentBeforeArticle | lib/jsonapi/resource_id_tree.rb:122-127 | a comment merged before its article is in the primary tree fails, but its node has already been stored; the primary tree gets no node |

## Left out

- `related_from` is read by the id trees but is not defined in `lib/jsonapi/resource_fragment.rb`. The model gives the fragment a `relatedFrom` set and `AddRelatedFrom` to stand for it. How the real fragments fill it is not part of this model.
- The related node's inverse bucket and `fragment.related_from` are one shared `Set` object in Ruby (line 112). The model copies the set as a value, so the sharing is lost in both directions: a later `AddRelatedFrom` does not show through to the stored node, and a later back-propagation into that bucket (lines 127-128, when a child tree's parent relationship name equals the inverse name, as in `comments.article`) does not change the fragment's `relatedFrom` or any other node sharing the set.
- Order is not modelled. Ruby's `Set` and `Hash` keep insertion order, and the order of each `rids` set, of each node's buckets and of `resources` is what later serialization emits; the model's `set` and `map` have no order. Back-propagation visits the sources in an arbitrary order, and a failing merge's `propagated` is any subset of the sources consistent with that. A batch is a sequence standing for the values of the Ruby hash in insertion order.
- A missing source node raises `NoMethodError` in Ruby (`nil[:relationships]`). The model returns `ok == false` with the state written so far, and a batch stops at the failing fragment, as the exception would.
- Relationship and include names are strings. The Ruby symbol/string distinction (`to_sym` on lines 16 and 85 against the raw `inverse_relationship` on line 112) is not modelled.
- A nil `inverse_relationship`, and whether the inverse relationship exists on the resource (unchecked in the source), are not modelled.
- `include_related` is modelled as the set of its keys; a nil `include_related` is the empty set; its values are never read.
- `resource_klass.caching?` and the resource class registry are foreign calls. They are the parameter `caching`, applied to the resource type.
- Cache and attribute values are opaque. Pulling attributes and relationships from fragments into nodes is unimplemented in the source and not modelled.
- Fetching fragments, flattening the trees, fetching resources from the cache or the store, and rendering the JSON:API document belong to other components and are not part of this model.
- Concurrency: the source has none; every merge is sequential.
