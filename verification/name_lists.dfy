/** Operations on ordered lists of device names. */
module NameLists {

  /** A device name, as the source's `std::string`. */
  type Name = string

  predicate NoDuplicates(s: seq<Name>) {
    forall i, j :: 0 <= i < j < |s| ==> s[i] != s[j]
  }

  /** `s` with every occurrence of `x` removed, the rest in order. */
  function RemoveAll(s: seq<Name>, x: Name): (r: seq<Name>)
    ensures x !in r
    ensures forall y :: y in r <==> y in s && y != x
    ensures multiset(r) == multiset(s)[x := 0]
    ensures x !in s ==> r == s
  {
    if |s| == 0 then []
    else
      assert s == s[..|s| - 1] + [s[|s| - 1]];
      if s[|s| - 1] == x then RemoveAll(s[..|s| - 1], x)
      else RemoveAll(s[..|s| - 1], x) + [s[|s| - 1]]
  }

  /** Removal works piecewise: on a concatenation it removes from each
      part, so the names kept stay in their original order. */
  lemma {:induction false} RemoveAllAppend(s: seq<Name>, t: seq<Name>, x: Name)
    ensures RemoveAll(s + t, x) == RemoveAll(s, x) + RemoveAll(t, x)
    decreases |t|
  {
    if |t| == 0 {
      assert s + t == s;
    } else {
      var t' := t[..|t| - 1];
      assert (s + t)[..|s + t| - 1] == s + t';
      RemoveAllAppend(s, t', x);
    }
  }

  /** The distinct elements of `s`, each placed where it first occurs. */
  function Dedup(s: seq<Name>): (r: seq<Name>)
    ensures NoDuplicates(r)
    ensures forall y :: y in r <==> y in s
    ensures |r| <= |s|
  {
    if |s| == 0 then []
    else
      var d := Dedup(s[..|s| - 1]);
      var y := s[|s| - 1];
      assert s == s[..|s| - 1] + [y];
      if y in d then d else d + [y]
  }

  /** Deduplicating one more element appends it exactly when it is new. */
  lemma DedupSnoc(s: seq<Name>, x: Name)
    ensures Dedup(s + [x]) == if x in s then Dedup(s) else Dedup(s) + [x]
  {
    assert (s + [x])[..|s|] == s;
  }

  /** A list without duplicates is its own deduplication. */
  lemma {:induction false} DedupOfDistinctList(s: seq<Name>)
    requires NoDuplicates(s)
    ensures Dedup(s) == s
    decreases |s|
  {
    if |s| > 0 {
      var s', y := s[..|s| - 1], s[|s| - 1];
      assert s == s' + [y];
      assert NoDuplicates(s') by {
        forall i, j | 0 <= i < j < |s'| ensures s'[i] != s'[j] {
          assert s'[i] == s[i] && s'[j] == s[j];
        }
      }
      DedupOfDistinctList(s');
      assert y !in s' by {
        forall i | 0 <= i < |s'| ensures s'[i] != y {
          assert s'[i] == s[i];
        }
      }
      DedupSnoc(s', y);
    }
  }

  /** Appending names that already occur leaves the deduplication as it
      was. */
  lemma {:induction false} DedupAppendSeen(s: seq<Name>, t: seq<Name>)
    requires forall x :: x in t ==> x in s
    ensures Dedup(s + t) == Dedup(s)
    decreases |t|
  {
    if |t| == 0 {
      assert s + t == s;
    } else {
      var t', x := t[..|t| - 1], t[|t| - 1];
      assert t == t' + [x];
      assert s + t == (s + t') + [x];
      DedupAppendSeen(s, t');
      assert x in s + t';
      DedupSnoc(s + t', x);
    }
  }

  lemma RemoveAllSingleton(x: Name, y: Name)
    ensures RemoveAll([x], y) == if x == y then [] else [x]
  {
    assert [x][..0] == [];
  }

  /** The position of the first occurrence of `x` in `s`. */
  function FirstIndex(s: seq<Name>, x: Name): (i: nat)
    requires x in s
    ensures i < |s| && s[i] == x
    ensures x !in s[..i]
  {
    if s[0] == x then 0
    else
      var i := 1 + FirstIndex(s[1..], x);
      assert s[..i] == [s[0]] + s[1..][..i - 1];
      i
  }

  lemma FirstIndexOfPrefix(s: seq<Name>, t: seq<Name>, x: Name)
    requires x in s
    ensures FirstIndex(s + t, x) == FirstIndex(s, x)
  {
    var i, j := FirstIndex(s + t, x), FirstIndex(s, x);
    assert (s + t)[..j] == s[..j];
    assert (s + t)[j] == x;
    assert i < |s| ==> s[i] == x;
  }

  /** The elements of `Dedup(s)` appear in the order of their first
      occurrences in `s`. */
  lemma {:induction false} DedupFirstSeenOrder(s: seq<Name>)
    ensures forall i, j :: 0 <= i < j < |Dedup(s)| ==>
      FirstIndex(s, Dedup(s)[i]) < FirstIndex(s, Dedup(s)[j])
    decreases |s|
  {
    if |s| > 0 {
      var s', y := s[..|s| - 1], s[|s| - 1];
      var d := Dedup(s');
      assert s == s' + [y];
      DedupFirstSeenOrder(s');
      forall z | z in d
        ensures FirstIndex(s, z) == FirstIndex(s', z)
      {
        FirstIndexOfPrefix(s', [y], z);
      }
      if y !in d {
        assert FirstIndex(s, y) == |s'|;
      }
    }
  }

  /** Removing a name and then deduplicating gives what deduplicating and
      then removing it gives. */
  lemma {:induction false} DedupRemoveAllCommute(s: seq<Name>, x: Name)
    ensures Dedup(RemoveAll(s, x)) == RemoveAll(Dedup(s), x)
    decreases |s|
  {
    if |s| > 0 {
      var s', y := s[..|s| - 1], s[|s| - 1];
      DedupRemoveAllCommute(s', x);
      var d := Dedup(s');
      if y != x {
        var t := RemoveAll(s', x);
        assert RemoveAll(s, x) == t + [y];
        assert (t + [y])[..|t + [y]| - 1] == t;
        if y !in d {
          RemoveAllAppend(d, [y], x);
        }
      }
    }
  }

  /** The position of `x` in a list without duplicates. */
  function IndexOf(s: seq<Name>, x: Name): (i: nat)
    requires x in s
    requires NoDuplicates(s)
    ensures i < |s| && s[i] == x
    ensures forall j :: 0 <= j < |s| && s[j] == x ==> j == i
  {
    FirstIndex(s, x)
  }
}
