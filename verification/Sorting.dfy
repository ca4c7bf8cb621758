/** Sorting by (L1 block, log index): the order both watchers put events in.  Log keys are
    unique, so the outcome does not depend on the order in which events were collected. */
module Sorting {

  type Key = (nat, nat)

  predicate Below(a: Key, b: Key) {
    a.0 < b.0 || (a.0 == b.0 && a.1 < b.1)
  }

  ghost predicate Ascending<T>(key: T -> Key, s: seq<T>) {
    forall i, j :: 0 <= i < j < |s| ==> Below(key(s[i]), key(s[j]))
  }

  ghost predicate Ordered<T>(key: T -> Key, s: seq<T>) {
    forall i, j :: 0 <= i < j < |s| ==> !Below(key(s[j]), key(s[i]))
  }

  function Insert<T>(key: T -> Key, e: T, s: seq<T>): (r: seq<T>)
    ensures |r| == |s| + 1
    ensures forall k :: 0 <= k < |r| ==> r[k] == e || r[k] in s
  {
    if s == [] || Below(key(e), key(s[0])) then [e] + s else [s[0]] + Insert(key, e, s[1..])
  }

  function Sort<T>(key: T -> Key, s: seq<T>): (r: seq<T>)
    ensures |r| == |s|
  {
    if s == [] then [] else Insert(key, s[0], Sort(key, s[1..]))
  }

  lemma {:induction false} InsertKeepsOrder<T>(key: T -> Key, e: T, s: seq<T>)
    requires Ordered(key, s)
    ensures Ordered(key, Insert(key, e, s))
  {
    if s != [] && !Below(key(e), key(s[0])) {
      var t := Insert(key, e, s[1..]);
      InsertKeepsOrder(key, e, s[1..]);
      forall k | 0 <= k < |t| ensures !Below(key(t[k]), key(s[0])) {
        if t[k] != e { var i :| 0 <= i < |s[1..]| && s[1..][i] == t[k]; }
      }
    }
  }

  lemma {:induction false} SortOrders<T>(key: T -> Key, s: seq<T>)
    ensures Ordered(key, Sort(key, s))
  {
    if s == [] {
    } else {
      SortOrders(key, s[1..]);
      InsertKeepsOrder(key, s[0], Sort(key, s[1..]));
    }
  }

  lemma HeadTail<T>(s: seq<T>)
    requires s != []
    ensures multiset(s) == multiset{s[0]} + multiset(s[1..])
  {
    assert s == [s[0]] + s[1..];
  }

  lemma {:induction false} InsertPermutes<T>(key: T -> Key, e: T, s: seq<T>)
    ensures multiset(Insert(key, e, s)) == multiset{e} + multiset(s)
  {
    if s != [] && !Below(key(e), key(s[0])) {
      InsertPermutes(key, e, s[1..]);
      HeadTail(s);
    }
  }

  lemma {:induction false} SortPermutes<T>(key: T -> Key, s: seq<T>)
    ensures multiset(Sort(key, s)) == multiset(s)
  {
    if s == [] {
    } else {
      SortPermutes(key, s[1..]);
      InsertPermutes(key, s[0], Sort(key, s[1..]));
      HeadTail(s);
    }
  }

  lemma Member<T>(s: seq<T>, t: seq<T>, k: nat) returns (i: nat)
    requires multiset(s) == multiset(t) && k < |s|
    ensures i < |t| && t[i] == s[k]
  {
    assert s[k] in multiset(t);
    i :| 0 <= i < |t| && t[i] == s[k];
  }

  lemma HeadsMeet<T>(key: T -> Key, r: seq<T>, t: seq<T>)
    requires Ordered(key, r) && Ascending(key, t)
    requires multiset(r) == multiset(t) && r != [] && t != []
    ensures r[0] == t[0]
  {
    var i := Member(r, t, 0);
    var j := Member(t, r, 0);
  }

  lemma TailsMatch<T>(r: seq<T>, t: seq<T>)
    requires multiset(r) == multiset(t) && r != [] && t != [] && r[0] == t[0]
    ensures multiset(r[1..]) == multiset(t[1..])
  {
    HeadTail(r);
    HeadTail(t);
    assert multiset(r[1..]) == multiset(r) - multiset{r[0]} == multiset(t[1..]);
  }

  lemma SameLength<T>(r: seq<T>, t: seq<T>)
    requires multiset(r) == multiset(t)
    ensures |r| == |t|
  {
    assert |r| == |multiset(r)| == |multiset(t)| == |t|;
  }

  lemma {:induction false} OrderedIsAscending<T>(key: T -> Key, r: seq<T>, t: seq<T>)
    requires Ordered(key, r) && Ascending(key, t)
    requires multiset(r) == multiset(t)
    ensures r == t
  {
    SameLength(r, t);
    if r == [] {
    } else {
      HeadsMeet(key, r, t);
      TailsMatch(r, t);
      OrderedIsAscending(key, r[1..], t[1..]);
      assert r == [r[0]] + r[1..] && t == [t[0]] + t[1..];
    }
  }

  /** Whatever order the events were collected in, sorting restores chain order. */
  lemma SortRestoresOrder<T>(key: T -> Key, s: seq<T>, t: seq<T>)
    requires Ascending(key, t) && multiset(s) == multiset(t)
    ensures Sort(key, s) == t
  {
    SortOrders(key, s);
    SortPermutes(key, s);
    OrderedIsAscending(key, Sort(key, s), t);
  }
}
