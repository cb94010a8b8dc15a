/** Logs whose every entry names the hash of the entry before it. The head hash fixes the whole log. */
module HashChain {

  function Head<E>(hash: E -> string, log: seq<E>): string {
    if log == [] then "" else hash(log[|log| - 1])
  }

  // Entry i links to the head of the log before it, and its hash is not the empty log's.
  ghost predicate LinkedAt<E(!new)>(hash: E -> string, link: E -> string, log: seq<E>, i: nat)
    requires i < |log|
  {
    hash(log[i]) != "" && link(log[i]) == Head(hash, log[..i])
  }

  ghost predicate Linked<E(!new)>(hash: E -> string, link: E -> string, log: seq<E>) {
    forall i | 0 <= i < |log| :: LinkedAt(hash, link, log, i)
  }

  lemma PrefixIsLinked<E(!new)>(hash: E -> string, link: E -> string, log: seq<E>, n: nat)
    requires Linked(hash, link, log) && n <= |log|
    ensures Linked(hash, link, log[..n])
  {
    forall i | 0 <= i < n ensures LinkedAt(hash, link, log[..n], i) {
      assert LinkedAt(hash, link, log, i) && log[..n][..i] == log[..i];
    }
  }

  // Entries with the same hash are the same entry, as far as `same` can tell, and link alike.
  ghost predicate Separates<E(!new)>(hash: E -> string, link: E -> string, same: (E, E) -> bool, a: seq<E>, b: seq<E>) {
    forall i, j | 0 <= i < |a| && 0 <= j < |b| && hash(a[i]) == hash(b[j]) ::
      same(a[i], b[j]) && link(a[i]) == link(b[j])
  }

  /** Two linked logs with the same head have the same length and the same entries. */
  lemma {:induction false} SameHeadSameLog<E(!new)>(hash: E -> string, link: E -> string, same: (E, E) -> bool,
                                                    a: seq<E>, b: seq<E>)
    requires Linked(hash, link, a) && Linked(hash, link, b) && Separates(hash, link, same, a, b)
    requires Head(hash, a) == Head(hash, b)
    ensures |a| == |b| && forall i | 0 <= i < |a| :: same(a[i], b[i])
    decreases |a|
  {
    if a != [] {
      assert LinkedAt(hash, link, a, |a| - 1);
    }
    if b != [] {
      assert LinkedAt(hash, link, b, |b| - 1);
    }
    if a != [] && b != [] {
      var x, y := a[..|a| - 1], b[..|b| - 1];
      PrefixIsLinked(hash, link, a, |x|);
      PrefixIsLinked(hash, link, b, |y|);
      SameHeadSameLog(hash, link, same, x, y);
      forall i | 0 <= i < |a| ensures same(a[i], b[i]) {
        if i < |x| { assert same(x[i], y[i]); }
      }
    }
  }
}
