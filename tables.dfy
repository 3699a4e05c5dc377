/** Sequence-level meaning of the in-memory tables: sequential IDs, lookup of the first row with a
    given ID, the filtered view of a list query and its offset/limit page. Every table of the
    repository is a `seq<T>` read through an `id` accessor. */
module Tables {
  import opened Common

  /** The repository's table invariant: the row at position i carries ID i + 1. */
  ghost predicate SequentialIds<T>(s: seq<T>, id: T -> int)
  {
    forall i :: 0 <= i < |s| ==> id(s[i]) == i + 1
  }

  /** IDs strictly increase along the sequence (store order). */
  ghost predicate IncreasingIds<T>(s: seq<T>, id: T -> int)
  {
    forall i, j :: 0 <= i < j < |s| ==> id(s[i]) < id(s[j])
  }

  /** The rows `items` renumbered from `first` on, in input order. */
  function Numbered<T>(items: seq<T>, first: int, withId: (T, int) -> T): (r: seq<T>)
    ensures |r| == |items|
  {
    seq(|items|, i requires 0 <= i < |items| => withId(items[i], first + i))
  }

  /** Position of the first row whose ID is `key`, scanning from the front. */
  function FirstIndexOf<T>(s: seq<T>, id: T -> int, key: int): (r: Option<nat>)
    ensures r.Some? ==> r.value < |s| && id(s[r.value]) == key
    ensures r.Some? ==> forall j :: 0 <= j < r.value ==> id(s[j]) != key
    ensures r.None? ==> forall j :: 0 <= j < |s| ==> id(s[j]) != key
  {
    if |s| == 0 then None
    else if id(s[0]) == key then Some(0)
    else match FirstIndexOf(s[1..], id, key)
      case None => None
      case Some(k) => Some(k + 1)
  }

  /** The row a Get returns: the first row with ID `key`, or ErrNoRows. */
  function Lookup<T>(s: seq<T>, id: T -> int, key: int): Result<T>
  {
    match FirstIndexOf(s, id, key)
    case Some(k) => Ok(s[k])
    case None => Err(ErrNoRows)
  }

  /** Under the table invariant the first row with ID `key` is at position key - 1, and there is
      one exactly when 1 <= key <= |s|. */
  lemma SequentialFind<T>(s: seq<T>, id: T -> int, key: int)
    requires SequentialIds(s, id)
    ensures FirstIndexOf(s, id, key).Some? <==> 1 <= key <= |s|
    ensures FirstIndexOf(s, id, key).Some? ==> FirstIndexOf(s, id, key).value == key - 1
  {
    if 1 <= key <= |s| {
      assert id(s[key - 1]) == key;
    }
  }

  /** Consequently a lookup succeeds iff 1 <= key <= |s|, and then returns row key - 1. */
  lemma SequentialLookup<T>(s: seq<T>, id: T -> int, key: int)
    requires SequentialIds(s, id)
    ensures Lookup(s, id, key).Ok? <==> 1 <= key <= |s|
    ensures Lookup(s, id, key).Ok? ==> Lookup(s, id, key).value == s[key - 1]
  {
    SequentialFind(s, id, key);
  }

  /** The rows that pass `keep`, in their original order (the loop in every List*). */
  function Filter<T>(s: seq<T>, keep: T -> bool): (r: seq<T>)
    ensures |r| <= |s|
    ensures forall x :: x in r ==> x in s && keep(x)
  {
    if |s| == 0 then []
    else Filter(s[..|s| - 1], keep) + (if keep(s[|s| - 1]) then [s[|s| - 1]] else [])
  }

  /** Nothing that passes is dropped. */
  lemma {:induction false} FilterComplete<T>(s: seq<T>, keep: T -> bool, x: T)
    requires x in s && keep(x)
    ensures x in Filter(s, keep)
    decreases |s|
  {
    if s[|s| - 1] != x {
      assert x in s[..|s| - 1] by {
        var i :| 0 <= i < |s| && s[i] == x;
        assert i < |s| - 1;
        assert s[..|s| - 1][i] == x;
      }
      FilterComplete(s[..|s| - 1], keep, x);
    }
  }

  /** The positions of the rows that pass. */
  ghost function Passing<T>(s: seq<T>, keep: T -> bool): set<int>
  {
    set i | 0 <= i < |s| && keep(s[i])
  }

  /** The passing positions of a sequence are those of its prefix plus possibly the last one. */
  lemma PassingSnoc<T>(s: seq<T>, keep: T -> bool)
    requires |s| > 0
    ensures Passing(s, keep) ==
      Passing(s[..|s| - 1], keep) + (if keep(s[|s| - 1]) then {|s| - 1} else {})
  {
    var init := s[..|s| - 1];
    forall i | 0 <= i < |init| ensures init[i] == s[i] { }
  }

  /** The filtered view has exactly one row per passing position: its length is the number of rows
      that pass, which is what every List* reports as `total`. */
  lemma {:induction false} FilterCount<T>(s: seq<T>, keep: T -> bool)
    ensures |Filter(s, keep)| == |Passing(s, keep)|
    decreases |s|
  {
    if |s| == 0 {
      assert Passing(s, keep) == {};
    } else {
      var n := |s| - 1;
      FilterCount(s[..n], keep);
      PassingSnoc(s, keep);
      assert n !in Passing(s[..n], keep);
    }
  }

  /** Filtering a table kept in store order keeps store order. */
  lemma {:induction false} FilterKeepsOrder<T>(s: seq<T>, keep: T -> bool, id: T -> int)
    requires SequentialIds(s, id)
    ensures IncreasingIds(Filter(s, keep), id)
    decreases |s|
  {
    if |s| > 0 {
      var n := |s| - 1;
      var init := s[..n];
      var f := Filter(init, keep);
      FilterKeepsOrder(init, keep, id);
      forall x | x in f ensures id(x) <= n {
        var i :| 0 <= i < |init| && init[i] == x;
      }
      var r := Filter(s, keep);
      forall i, j | 0 <= i < j < |r| ensures id(r[i]) < id(r[j]) {
        if j >= |f| {
          assert r[i] == f[i] && r[i] in f;
          assert r[j] == s[n];
        } else {
          assert r[i] == f[i] && r[j] == f[j];
        }
      }
    }
  }

  /** The page Go slices out of the filtered rows: empty when `offset` is past the end, otherwise
      `s[offset .. min(offset + limit, |s|)]`. The precondition is exactly the case in which Go's
      slice expression does not panic. */
  function Page<T>(s: seq<T>, offset: int, limit: int): (r: seq<T>)
    requires 0 <= offset
    requires 0 <= limit || offset > |s|
    ensures |r| == (if offset >= |s| then 0 else Min(limit, |s| - offset))
    ensures forall k :: 0 <= k < |r| ==> r[k] == s[offset + k]
  {
    if offset > |s| then [] else s[offset..Min(offset + limit, |s|)]
  }

  /** A page never holds more than `limit` rows and never a row outside the filtered view. */
  lemma PageWithinLimit<T>(s: seq<T>, offset: int, limit: int)
    requires 0 <= offset && 0 <= limit
    ensures |Page(s, offset, limit)| <= limit
    ensures forall x :: x in Page(s, offset, limit) ==> x in s
  {
  }

  /** Two consecutive pages put together are the page of the combined size: what "load more"
      relies on. */
  lemma PagesConcatenate<T>(s: seq<T>, offset: int, limit1: int, limit2: int)
    requires 0 <= offset && 0 <= limit1 && 0 <= limit2
    ensures Page(s, offset, limit1) + Page(s, offset + limit1, limit2) == Page(s, offset, limit1 + limit2)
  {
    if offset <= |s| && offset + limit1 <= |s| {
      assert s[offset..Min(offset + limit1 + limit2, |s|)]
          == s[offset..offset + limit1] + s[offset + limit1..Min(offset + limit1 + limit2, |s|)];
    }
  }

  /** A page cut from rows in store order is itself in store order. */
  lemma PageKeepsOrder<T>(s: seq<T>, offset: int, limit: int, id: T -> int)
    requires 0 <= offset && (0 <= limit || offset > |s|)
    requires IncreasingIds(s, id)
    ensures IncreasingIds(Page(s, offset, limit), id)
  {
  }
}
