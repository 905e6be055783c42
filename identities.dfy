/**
 * Value types shared by the fragment and the id trees: a resource's identity,
 * the two parts of a relationship that the trees read, and the opaque values a
 * fragment carries.
 */
module Identities {

  /** A resource is named by its type and its id; equality is by value. */
  datatype ResourceIdentity = ResourceIdentity(resourceType: string, id: string)

  /**
   * A relationship as the trees see it: its name (the key of the child-tree
   * registry and of the back-propagated bucket) and the name of its inverse
   * (the bucket of a related node that points back to its sources).
   */
  datatype Relationship = Relationship(name: string, inverseRelationship: string)

  /** The value of a resource's cache field; never inspected. */
  type CacheValue(==)

  /** An attribute value; never inspected. */
  type AttributeValue(==)
}
