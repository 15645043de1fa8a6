/**
 * Name uniqueness across a collection: the duplicate checks of the Create
 * and Edit actions compare names ignoring case, and Edit leaves the record
 * being edited out of the comparison.
 */
module Catalogue {
  import opened Wrappers
  import opened Text

  /** No two documents of m have names equal ignoring case. */
  ghost predicate NamesUnique<T>(m: map<string, T>, nameOf: T -> string) {
    forall a, b | a in m && b in m && a != b :: !SameIgnoringCase(nameOf(m[a]), nameOf(m[b]))
  }

  /** The duplicate query finds a document whose name equals name ignoring
      case, other than the one with id except. */
  predicate NameTaken<T>(m: map<string, T>, nameOf: T -> string, name: string, except: Option<string>) {
    exists id | id in m && Some(id) != except :: SameIgnoringCase(nameOf(m[id]), name)
  }

  /** Writing v under id keeps the names unique exactly when no other
      document already has v's name. */
  lemma PutKeepsNamesUnique<T>(m: map<string, T>, nameOf: T -> string, id: string, v: T)
    requires NamesUnique(m, nameOf)
    ensures NamesUnique(m[id := v], nameOf) <==> !NameTaken(m, nameOf, nameOf(v), Some(id))
  {
    var m' := m[id := v];
    if NameTaken(m, nameOf, nameOf(v), Some(id)) {
      var other :| other in m && Some(other) != Some(id) && SameIgnoringCase(nameOf(m[other]), nameOf(v));
      assert other in m' && id in m' && m'[other] == m[other] && m'[id] == v;
    } else {
      forall a, b | a in m' && b in m' && a != b ensures !SameIgnoringCase(nameOf(m'[a]), nameOf(m'[b])) {
        if a == id {
          assert !SameIgnoringCase(nameOf(m[b]), nameOf(v));
        } else if b == id {
          assert !SameIgnoringCase(nameOf(m[a]), nameOf(v));
        }
      }
    }
  }

  /** In a collection with unique names, a document's own name is taken by
      no other document, so rewriting it under its name keeps uniqueness. */
  lemma OwnNameIsFree<T>(m: map<string, T>, nameOf: T -> string, id: string)
    requires NamesUnique(m, nameOf) && id in m
    ensures !NameTaken(m, nameOf, nameOf(m[id]), Some(id))
  {
  }

  /** A name free in the whole collection is free with any exception too. */
  lemma FreeNameStaysFree<T>(m: map<string, T>, nameOf: T -> string, name: string, except: Option<string>)
    requires !NameTaken(m, nameOf, name, None)
    ensures !NameTaken(m, nameOf, name, except)
  {
  }

  /** Deleting a document keeps the names unique. */
  lemma RemoveKeepsNamesUnique<T>(m: map<string, T>, nameOf: T -> string, id: string)
    requires NamesUnique(m, nameOf)
    ensures NamesUnique(m - {id}, nameOf)
  {
  }
}
