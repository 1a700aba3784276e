/** Vocabulary shared by every module: options, interface names, and orders in
    which a hash table may hand out its keys. */
module Base {

  type Name = string

  datatype Option<+T> = None | Some(value: T)

  ghost predicate Distinct<T>(s: seq<T>) {
    forall i, j :: 0 <= i < j < |s| ==> s[i] != s[j]
  }

  /** `order` lists every key exactly once: one possible hash iteration order. */
  ghost predicate Enumerates<T(!new)>(order: seq<T>, keys: set<T>) {
    && Distinct(order)
    && (forall x :: x in order <==> x in keys)
  }

  /** Any finite set has an enumeration that starts with a chosen prefix. */
  lemma EnumerationWithPrefix<T(!new)>(prefix: seq<T>, keys: set<T>) returns (order: seq<T>)
    requires Distinct(prefix) && forall x :: x in prefix ==> x in keys
    ensures Enumerates(order, keys) && |prefix| <= |order| && order[..|prefix|] == prefix
    decreases keys - (set x | x in prefix)
  {
    var rest := keys - (set x | x in prefix);
    if rest == {} {
      order := prefix;
      forall x | x in keys ensures x in prefix { assert x !in rest; }
    } else {
      var y :| y in rest;
      order := EnumerationWithPrefix(prefix + [y], keys);
      assert order[..|prefix|] == order[..|prefix| + 1][..|prefix|];
    }
  }
}
