/** Taking an element out of a non-empty set, for loops and recursions over sets. */
module Sets {
  lemma NonEmptyHasElement<T>(s: set<T>)
    requires |s| != 0
    ensures exists x :: x in s
  {
    if forall x :: x !in s {
      assert false;
    }
  }

  /** Some element of a non-empty set (for specifications). */
  ghost function Pick<T>(s: set<T>): (x: T)
    requires |s| != 0
    ensures x in s
  {
    NonEmptyHasElement(s);
    var x :| x in s; x
  }

  /** Some element of a non-empty set (for iteration). */
  method Choose<T>(s: set<T>) returns (x: T)
    requires |s| != 0
    ensures x in s
  {
    NonEmptyHasElement(s);
    x :| x in s;
  }
}
