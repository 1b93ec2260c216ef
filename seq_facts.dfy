/**
 * Facts about sequence concatenation and slicing, each stated over an
 * arbitrary element type so that it is proved once, away from the
 * definitions of the modules that use it.
 */
module SeqFacts {
  lemma Assoc<T>(a: seq<T>, b: seq<T>, c: seq<T>)
    ensures (a + b) + c == a + (b + c)
  {
  }

  /** Eight pieces, regrouped from the right. */
  lemma Reassociate<T>(x1: seq<T>, x2: seq<T>, x3: seq<T>, x4: seq<T>, x5: seq<T>, x6: seq<T>, x7: seq<T>, x8: seq<T>)
    ensures x1 + x2 + x3 + x4 + x5 + x6 + x7 + x8 == x1 + (x2 + (x3 + (x4 + (x5 + (x6 + (x7 + x8))))))
  {
    var t7 := x7 + x8;
    var t6 := x6 + t7;
    var t5 := x5 + t6;
    var t4 := x4 + t5;
    var t3 := x3 + t4;
    Assoc(x1 + x2 + x3 + x4 + x5 + x6, x7, x8);
    Assoc(x1 + x2 + x3 + x4 + x5, x6, t7);
    Assoc(x1 + x2 + x3 + x4, x5, t6);
    Assoc(x1 + x2 + x3, x4, t5);
    Assoc(x1 + x2, x3, t4);
    Assoc(x1, x2, t3);
  }

  /** Two pieces appended to the last part of x + c move out to the top level. */
  lemma Regroup<T>(x: seq<T>, c: seq<T>, d: seq<T>, e: seq<T>)
    ensures x + ((c + d) + e) == ((x + c) + d) + e
  {
    Assoc(c, d, e);
    Assoc(x, c, d + e);
    Assoc(x + c, d, e);
  }

  /** Dropping the last and then the first element, or the other way round. */
  lemma InnerSlice<T>(s: seq<T>)
    requires |s| >= 2
    ensures s[..|s| - 1][0] == s[0]
    ensures s[..|s| - 1][1..] == s[1..][..|s| - 2]
    ensures s[1..][|s| - 2] == s[|s| - 1]
  {
  }

  lemma ConsSplit<T>(s: seq<T>)
    requires |s| > 0
    ensures [s[0]] + s[1..] == s
  {
  }

  /** A prefix one element longer. */
  lemma TakeSnoc<T>(s: seq<T>, i: nat)
    requires i < |s|
    ensures s[..i + 1] == s[..i] + [s[i]]
  {
  }

  lemma TakeAll<T>(s: seq<T>)
    ensures s[..|s|] == s
  {
  }

  /** The last element of a non-empty sequence split off. */
  lemma SnocSplit<T>(s: seq<T>)
    requires |s| > 0
    ensures s == s[..|s| - 1] + [s[|s| - 1]]
  {
  }

  /** Dropping the first element of a sequence with one more at the end. */
  lemma DropSnoc<T>(s: seq<T>, x: T)
    requires |s| > 0
    ensures (s + [x])[1..] == s[1..] + [x]
  {
  }

  /** The prefix of s + [x] of length |s|. */
  lemma PrefixOfSnoc<T>(s: seq<T>, x: T)
    ensures (s + [x])[..|s|] == s
  {
  }
}
