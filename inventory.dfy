/**
 * The character's inventory is a Java ArrayList<String>: ordered, appended to
 * at the end, and searched with equals. Because undo re-adds items without a
 * membership check, the list can come to hold the same name twice, so it is
 * modelled as a sequence and not as a set.
 */
module Inventory {

  /** No name occurs twice in the list. */
  predicate NoDuplicates(s: seq<string>) {
    forall i, j :: 0 <= i < j < |s| ==> s[i] != s[j]
  }

  /** ArrayList.remove(Object): removes the first occurrence of x, if any. */
  function RemoveFirst(s: seq<string>, x: string): (r: seq<string>)
    ensures multiset(r) == multiset(s) - multiset{x}
    ensures x !in s ==> r == s
    ensures x in s ==> |r| == |s| - 1
  {
    if s == [] then []
    else if s[0] == x then
      assert s == [s[0]] + s[1..];
      s[1..]
    else
      assert s == [s[0]] + s[1..];
      [s[0]] + RemoveFirst(s[1..], x)
  }

  /** Removing a name that was just appended, and was not there before, gives back the list. */
  lemma {:induction false} RemoveFirstOfAppended(s: seq<string>, x: string)
    requires x !in s
    ensures RemoveFirst(s + [x], x) == s
  {
    if s == [] {
      assert [] + [x] == [x];
    } else {
      assert (s + [x])[1..] == s[1..] + [x];
      RemoveFirstOfAppended(s[1..], x);
      assert s == [s[0]] + s[1..];
    }
  }

  /** A list with a name in front has no duplicates exactly when the rest has none and lacks that name. */
  lemma NoDuplicatesCons(a: string, t: seq<string>)
    ensures NoDuplicates([a] + t) <==> a !in t && NoDuplicates(t)
  {
    var s := [a] + t;
    if a !in t && NoDuplicates(t) {
      forall i, j | 0 <= i < j < |s| ensures s[i] != s[j] {
        if i == 0 {
          assert s[j] == t[j - 1];
        } else {
          assert s[i] == t[i - 1] && s[j] == t[j - 1];
        }
      }
    }
    if NoDuplicates(s) {
      forall i, j | 0 <= i < j < |t| ensures t[i] != t[j] {
        assert s[i + 1] != s[j + 1];
      }
      forall j | 0 <= j < |t| ensures t[j] != a {
        assert s[0] != s[j + 1];
      }
    }
  }

  /** Removing from a list without duplicates leaves no copy behind and no duplicates. */
  lemma {:induction false} RemoveFirstKeepsNoDuplicates(s: seq<string>, x: string)
    requires NoDuplicates(s)
    ensures x !in RemoveFirst(s, x)
    ensures NoDuplicates(RemoveFirst(s, x))
  {
    if s != [] {
      assert s == [s[0]] + s[1..];
      NoDuplicatesCons(s[0], s[1..]);
      if s[0] != x {
        var t := RemoveFirst(s[1..], x);
        RemoveFirstKeepsNoDuplicates(s[1..], x);
        assert s[0] !in t by {
          assert multiset(t)[s[0]] <= multiset(s[1..])[s[0]] == 0;
        }
        NoDuplicatesCons(s[0], t);
      }
    }
  }

  /** In a list without duplicates a held name is counted exactly once. */
  lemma {:induction false} NoDuplicatesCountsOne(s: seq<string>, x: string)
    requires NoDuplicates(s) && x in s
    ensures multiset(s)[x] == 1
  {
    assert s == [s[0]] + s[1..];
    NoDuplicatesCons(s[0], s[1..]);
    if s[0] != x {
      NoDuplicatesCountsOne(s[1..], x);
    }
  }
}
