/**
 * A resource fragment: one resource identity together with the partial data
 * a fetch produced for it (its cache field value, attribute values, and the
 * identities it is related to, grouped by relationship name).
 */
module Fragments {
  import opened Wrappers
  import opened Identities

  /** What the id trees read from a fragment, as a value. */
  datatype FragmentData = FragmentData(
    identity: ResourceIdentity,
    cache: Option<CacheValue>,
    relatedFrom: set<ResourceIdentity>)

  /** The list stored under `name`, or the empty list when there is none yet. */
  function RelatedList(related: map<string, seq<ResourceIdentity>>, name: string): seq<ResourceIdentity>
  {
    if name in related then related[name] else []
  }

  /**
   * `related` after appending `id` to the list under `name`: that list grows
   * by exactly one element at its end, keeping duplicates, and every other
   * list is left as it was.
   */
  function AppendRelated(related: map<string, seq<ResourceIdentity>>, name: string, id: ResourceIdentity)
    : (r: map<string, seq<ResourceIdentity>>)
    ensures r.Keys == related.Keys + {name}
    ensures |r[name]| == |RelatedList(related, name)| + 1
    ensures r[name][..|RelatedList(related, name)|] == RelatedList(related, name)
    ensures r[name][|RelatedList(related, name)|] == id
    ensures multiset(r[name]) == multiset(RelatedList(related, name)) + multiset{id}
    ensures forall other :: other in related && other != name ==> r[other] == related[other]
  {
    var list := RelatedList(related, name) + [id];
    assert list[..|list| - 1] == RelatedList(related, name);
    related[name := list]
  }

  /** A partially fetched resource; every field but `identity` is updated in place. */
  class ResourceFragment {
    const identity: ResourceIdentity
    var cache: Option<CacheValue>
    var attributes: map<string, AttributeValue>
    var related: map<string, seq<ResourceIdentity>>
    /**
     * The identities whose traversal of a relationship led to this fragment.
     * The id trees read this set as `related_from`; the fragment's own file
     * does not define it, so it is kept here beside `related`.
     */
    var relatedFrom: set<ResourceIdentity>

    /** A fragment for `identity` with no cache value and no data yet. */
    constructor (identity: ResourceIdentity)
      ensures this.identity == identity
      ensures cache == None && attributes == map[] && related == map[] && relatedFrom == {}
    {
      this.identity := identity;
      cache := None;
      attributes := map[];
      related := map[];
      relatedFrom := {};
    }

    /** The fragment's current contents as a value. */
    function Data(): FragmentData
      reads this
    {
      FragmentData(identity, cache, relatedFrom)
    }

    /** `cache=`: the last value written wins; nothing else changes. */
    method SetCache(cache: Option<CacheValue>)
      modifies this
      ensures this.cache == cache
      ensures attributes == old(attributes) && related == old(related)
      ensures relatedFrom == old(relatedFrom)
    {
      this.cache := cache;
    }

    /** Stores `value` under `name`, overwriting an earlier value; other attributes stay. */
    method AddAttribute(name: string, value: AttributeValue)
      modifies this
      ensures attributes == old(attributes)[name := value]
      ensures cache == old(cache) && related == old(related) && relatedFrom == old(relatedFrom)
    {
      attributes := attributes[name := value];
    }

    /**
     * Appends `id` to the list for `relationshipName`, creating an empty list
     * first when there is none; the other lists stay as they were.
     */
    method AddRelated(relationshipName: string, id: ResourceIdentity)
      modifies this
      ensures related == AppendRelated(old(related), relationshipName, id)
      ensures cache == old(cache) && attributes == old(attributes) && relatedFrom == old(relatedFrom)
    {
      if relationshipName !in related {
        related := related[relationshipName := []];
      }
      related := related[relationshipName := related[relationshipName] + [id]];
    }

    /** Records one more source identity of this fragment; a set, so repeats are absorbed. */
    method AddRelatedFrom(source: ResourceIdentity)
      modifies this
      ensures relatedFrom == old(relatedFrom) + {source}
      ensures cache == old(cache) && attributes == old(attributes) && related == old(related)
    {
      relatedFrom := relatedFrom + {source};
    }
  }
}
