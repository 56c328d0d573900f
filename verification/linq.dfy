/**
 * The LINQ operators the core relies on, as pure functions over sequences:
 * `Where` keeps input order, `GroupBy` yields one group per distinct key in
 * the order of each key's first occurrence, and each group keeps the input
 * order of its elements.
 */
module Linq {

  /** The elements of `s` whose key is `k`, in input order. */
  function Where<T, K(==)>(s: seq<T>, key: T -> K, k: K): (r: seq<T>)
    ensures |r| <= |s|
    ensures forall x :: x in r ==> x in s && key(x) == k
    ensures forall x :: x in s && key(x) == k ==> x in r
  {
    if s == [] then [] else (if key(s[0]) == k then [s[0]] else []) + Where(s[1..], key, k)
  }

  predicate Distinct<K(==)>(ks: seq<K>) {
    forall i, j :: 0 <= i < j < |ks| ==> ks[i] != ks[j]
  }

  /** The distinct keys of `s`, in the order of their first occurrence. */
  function Keys<T, K(==)>(s: seq<T>, key: T -> K): (ks: seq<K>)
    ensures Distinct(ks)
    ensures forall x :: x in s ==> key(x) in ks
  {
    if s == [] then []
    else
      var ks := Keys(s[..|s| - 1], key);
      var last := s[|s| - 1];
      assert s == s[..|s| - 1] + [last];
      if key(last) in ks then ks else ks + [key(last)]
  }

  function GroupsOf<T, K(==)>(ks: seq<K>, s: seq<T>, key: T -> K): (gs: seq<(K, seq<T>)>)
    ensures |gs| == |ks|
    ensures forall i :: 0 <= i < |ks| ==> gs[i] == (ks[i], Where(s, key, ks[i]))
  {
    if ks == [] then [] else [(ks[0], Where(s, key, ks[0]))] + GroupsOf(ks[1..], s, key)
  }

  /** LINQ `GroupBy`: (key, elements) pairs, keys in first-occurrence order. */
  function GroupBy<T, K(==)>(s: seq<T>, key: T -> K): seq<(K, seq<T>)> {
    GroupsOf(Keys(s, key), s, key)
  }

  function Concat<T>(ss: seq<seq<T>>): seq<T> {
    if ss == [] then [] else ss[0] + Concat(ss[1..])
  }

  /** All elements of all groups, group after group. */
  function Members<T, K>(gs: seq<(K, seq<T>)>): seq<T> {
    if gs == [] then [] else gs[0].1 + Members(gs[1..])
  }

  lemma {:induction false} ConcatAppend<T>(a: seq<seq<T>>, b: seq<seq<T>>)
    ensures Concat(a + b) == Concat(a) + Concat(b)
  {
    if a == [] {
      assert a + b == b;
    } else {
      assert (a + b)[1..] == a[1..] + b;
      ConcatAppend(a[1..], b);
    }
  }

  lemma {:induction false} MembersAppend<T, K>(a: seq<(K, seq<T>)>, b: seq<(K, seq<T>)>)
    ensures Members(a + b) == Members(a) + Members(b)
  {
    if a == [] {
      assert a + b == b;
    } else {
      assert (a + b)[1..] == a[1..] + b;
      MembersAppend(a[1..], b);
    }
  }

  lemma {:induction false} WhereSnoc<T, K>(s: seq<T>, x: T, key: T -> K, k: K)
    ensures Where(s + [x], key, k) == Where(s, key, k) + (if key(x) == k then [x] else [])
  {
    if s == [] {
      assert [x][1..] == [];
    } else {
      assert (s + [x])[1..] == s[1..] + [x];
      WhereSnoc(s[1..], x, key, k);
    }
  }

  lemma {:induction false} WhereNone<T, K>(s: seq<T>, key: T -> K, k: K)
    requires forall x :: x in s ==> key(x) != k
    ensures Where(s, key, k) == []
  {
    if s != [] {
      WhereNone(s[1..], key, k);
    }
  }

  lemma {:induction false} GroupsOfSnoc<T, K>(ks: seq<K>, k: K, s: seq<T>, key: T -> K)
    ensures GroupsOf(ks + [k], s, key) == GroupsOf(ks, s, key) + [(k, Where(s, key, k))]
  {
  }

  /** Appending one element adds it to the members of its own group only. */
  lemma {:induction false} MembersSnoc<T, K>(ks: seq<K>, s: seq<T>, x: T, key: T -> K)
    requires Distinct(ks)
    ensures multiset(Members(GroupsOf(ks, s + [x], key)))
         == multiset(Members(GroupsOf(ks, s, key))) + (if key(x) in ks then multiset{x} else multiset{})
  {
    if ks != [] {
      WhereSnoc(s, x, key, ks[0]);
      MembersSnoc(ks[1..], s, x, key);
      assert key(x) in ks <==> key(x) == ks[0] || key(x) in ks[1..];
      assert key(x) == ks[0] ==> key(x) !in ks[1..];
    }
  }

  /** GroupBy neither loses nor duplicates an element. */
  lemma {:induction false} GroupByIsPermutation<T, K>(s: seq<T>, key: T -> K)
    ensures multiset(Members(GroupBy(s, key))) == multiset(s)
  {
    if s != [] {
      var init, last := s[..|s| - 1], s[|s| - 1];
      assert s == init + [last];
      GroupByIsPermutation(init, key);
      GroupBySnocMembers(init, last, key);
      assert multiset(s) == multiset(init) + multiset{last};
    }
  }

  /** Appending one element to the input appends it to the groups' members, up to order. */
  lemma GroupBySnocMembers<T, K>(init: seq<T>, last: T, key: T -> K)
    ensures multiset(Members(GroupBy(init + [last], key))) == multiset(Members(GroupBy(init, key))) + multiset{last}
  {
    var s := init + [last];
    var ks := Keys(init, key);
    assert s[..|s| - 1] == init && s[|s| - 1] == last;
    MembersSnoc(ks, init, last, key);
    if key(last) in ks {
      assert Keys(s, key) == ks;
    } else {
      assert Keys(s, key) == ks + [key(last)];
      NewGroupMembers(ks, init, last, key);
    }
  }

  /** A key met for the first time adds a group holding just that element. */
  lemma NewGroupMembers<T, K>(ks: seq<K>, init: seq<T>, last: T, key: T -> K)
    requires ks == Keys(init, key) && key(last) !in ks
    ensures multiset(Members(GroupsOf(ks + [key(last)], init + [last], key)))
         == multiset(Members(GroupsOf(ks, init + [last], key))) + multiset{last}
  {
    var s := init + [last];
    var k := key(last);
    GroupsOfSnoc(ks, k, s, key);
    MembersAppend(GroupsOf(ks, s, key), [(k, Where(s, key, k))]);
    WhereSnoc(init, last, key, k);
    WhereNone(init, key, k);
    assert Where(s, key, k) == [last];
    assert Members([(k, [last])]) == [last];
  }

  lemma {:induction false} WhereAppend<T, K>(a: seq<T>, b: seq<T>, key: T -> K, k: K)
    ensures Where(a + b, key, k) == Where(a, key, k) + Where(b, key, k)
  {
    if a == [] {
      assert a + b == b;
    } else {
      assert (a + b)[1..] == a[1..] + b;
      WhereAppend(a[1..], b, key, k);
    }
  }

  lemma {:induction false} WhereAll<T, K>(s: seq<T>, key: T -> K, k: K)
    requires forall x :: x in s ==> key(x) == k
    ensures Where(s, key, k) == s
  {
    if s != [] {
      WhereAll(s[1..], key, k);
    }
  }

  /** An element of a member of `ss` is an element of their concatenation. */
  lemma {:induction false} InConcat<T>(ss: seq<seq<T>>, c: seq<T>, x: T)
    requires c in ss && x in c
    ensures x in Concat(ss)
  {
    if ss[0] != c {
      InConcat(ss[1..], c, x);
    }
  }

  /** Every key of `Keys` is the key of some element. */
  lemma {:induction false} KeysOccur<T, K>(s: seq<T>, key: T -> K, k: K)
    requires k in Keys(s, key)
    ensures exists p :: 0 <= p < |s| && key(s[p]) == k
  {
    var init := s[..|s| - 1];
    assert s == init + [s[|s| - 1]];
    if k in Keys(init, key) {
      KeysOccur(init, key, k);
      var p :| 0 <= p < |init| && key(init[p]) == k;
      assert s[p] == init[p];
    }
  }

  /**
   * `Keys` lists every key of `s` exactly once, nothing else, and in the order
   * of first occurrence: the keys met in any prefix of `s` are a prefix of
   * `Keys(s)`, so a key met earlier is listed earlier.
   */
  lemma KeysInFirstOccurrenceOrder<T, K>(s: seq<T>, key: T -> K)
    ensures Distinct(Keys(s, key))
    ensures forall q :: 0 <= q < |s| ==> key(s[q]) in Keys(s, key)
    ensures forall k :: k in Keys(s, key) ==> exists p :: 0 <= p < |s| && key(s[p]) == k
    ensures forall n :: 0 <= n <= |s| ==> Keys(s[..n], key) <= Keys(s, key)
  {
    forall k | k in Keys(s, key)
      ensures exists p :: 0 <= p < |s| && key(s[p]) == k
    {
      KeysOccur(s, key, k);
    }
    forall n | 0 <= n <= |s|
      ensures Keys(s[..n], key) <= Keys(s, key)
    {
      KeysOfPrefix(s, key, n);
    }
  }

  /** The keys of a prefix are a prefix of the keys. */
  lemma KeysOfPrefix<T, K>(s: seq<T>, key: T -> K, n: nat)
    requires n <= |s|
    ensures Keys(s[..n], key) <= Keys(s, key)
  {
    assert s == s[..n] + s[n..];
    KeysOfAppend(s[..n], s[n..], key);
  }

  lemma {:induction false} KeysOfAppend<T, K>(a: seq<T>, b: seq<T>, key: T -> K)
    ensures Keys(a, key) <= Keys(a + b, key)
  {
    if b == [] {
      assert a + b == a;
    } else {
      var b', y := b[..|b| - 1], b[|b| - 1];
      assert a + b == (a + b') + [y];
      KeysOfAppend(a, b', key);
      KeysSnoc(a + b', y, key);
    }
  }

  /** One more element adds its key to `Keys` exactly when the key is new. */
  lemma KeysSnoc<T, K>(init: seq<T>, x: T, key: T -> K)
    ensures Keys(init + [x], key) == if key(x) in Keys(init, key) then Keys(init, key) else Keys(init, key) + [key(x)]
  {
    var s := init + [x];
    assert s[..|s| - 1] == init;
  }

  /** Each group holds elements of the input, all with the group's key. */
  lemma GroupMember<T, K>(s: seq<T>, key: T -> K, i: int, x: T)
    requires 0 <= i < |GroupBy(s, key)| && x in GroupBy(s, key)[i].1
    ensures x in s && key(x) == GroupBy(s, key)[i].0
  {
  }

}
