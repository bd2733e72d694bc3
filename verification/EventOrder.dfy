/** The chain order in which event logs are played: by block, then by position in the block. */
module EventOrder {
  datatype Key = Key(block: nat, logIndex: nat)

  predicate Before(a: Key, b: Key) {
    a.block < b.block || (a.block == b.block && a.logIndex < b.logIndex)
  }

  predicate Ordered(s: seq<Key>) {
    forall i, j :: 0 <= i < j < |s| ==> Before(s[i], s[j])
  }

  ghost function Members(s: seq<Key>): set<Key> {
    set k | k in s
  }

  ghost predicate IsFirst(k: Key, keys: set<Key>) {
    k in keys && forall j :: j in keys ==> j == k || Before(k, j)
  }

  lemma {:induction false} SomeFirst(keys: set<Key>)
    requires keys != {}
    ensures exists k :: IsFirst(k, keys)
  {
    var k :| k in keys;
    var rest := keys - {k};
    if rest == {} {
      assert keys == {k};
      assert IsFirst(k, keys);
    } else {
      SomeFirst(rest);
      var j :| IsFirst(j, rest);
      var first := if Before(j, k) then j else k;
      forall i | i in keys ensures i == first || Before(first, i) {
        assert i == k || i in rest;
      }
      assert IsFirst(first, keys);
    }
  }

  lemma NoMembers(s: seq<Key>)
    ensures Members(s) == {} <==> s == []
  {
    assert s != [] ==> s[0] in Members(s);
  }

  /** The head of an ordered sequence is the first of its members, and the only one. */
  lemma HeadIsFirst(s: seq<Key>)
    requires s != [] && Ordered(s)
    ensures IsFirst(s[0], Members(s)) && forall k :: IsFirst(k, Members(s)) ==> k == s[0]
    ensures Members(s[1..]) == Members(s) - {s[0]} && Ordered(s[1..])
  {
    assert s[0] in Members(s);
    assert forall k :: k in s <==> k == s[0] || k in s[1..];
    assert forall i :: 1 <= i < |s| ==> s[i] != s[0];
  }

  lemma PutFirst(k: Key, s: seq<Key>, keys: set<Key>)
    requires IsFirst(k, keys) && Members(s) == keys - {k} && Ordered(s)
    ensures Members([k] + s) == keys && Ordered([k] + s)
  {
    forall i | 0 <= i < |s| ensures Before(k, s[i]) {
      assert s[i] in Members(s);
    }
    forall x ensures x in [k] + s <==> x in keys {
      assert x in [k] + s <==> x == k || x in s;
      assert x in s <==> x in Members(s);
    }
  }

  /** `order by block_number, log_index asc`. */
  ghost function InOrder(keys: set<Key>): (s: seq<Key>)
    ensures Members(s) == keys && Ordered(s)
  {
    if keys == {} then []
    else
      SomeFirst(keys);
      var k :| IsFirst(k, keys);
      var rest := InOrder(keys - {k});
      PutFirst(k, rest, keys);
      [k] + rest
  }

  /** In chain order means by block and, within a block, by log index; nothing is left out, added or repeated. */
  lemma ChainOrder(keys: set<Key>)
    ensures forall k :: k in keys <==> k in InOrder(keys)
    ensures forall i, j :: 0 <= i < j < |InOrder(keys)| ==>
                             var a, b := InOrder(keys)[i], InOrder(keys)[j];
                             a.block <= b.block && (a.block == b.block ==> a.logIndex < b.logIndex)
  {
    assert forall k :: k in keys <==> k in Members(InOrder(keys));
    hide InOrder;
    forall i, j | 0 <= i < j < |InOrder(keys)| ensures Before(InOrder(keys)[i], InOrder(keys)[j]) {
    }
  }

  /** There is only one way to put a set in order. */
  lemma {:induction false} InOrderUnique(a: seq<Key>, b: seq<Key>)
    requires Ordered(a) && Ordered(b) && Members(a) == Members(b)
    ensures a == b
  {
    NoMembers(a);
    NoMembers(b);
    if a != [] {
      HeadIsFirst(a);
      HeadIsFirst(b);
      InOrderUnique(a[1..], b[1..]);
      assert a == [a[0]] + a[1..] && b == [b[0]] + b[1..];
    }
  }

  lemma InOrderIs(s: seq<Key>)
    requires Ordered(s)
    ensures InOrder(Members(s)) == s
  {
    InOrderUnique(InOrder(Members(s)), s);
  }

  predicate AllBefore(s: seq<Key>, t: seq<Key>) {
    forall i, j :: 0 <= i < |s| && 0 <= j < |t| ==> Before(s[i], t[j])
  }

  lemma MembersConcat(s: seq<Key>, t: seq<Key>)
    ensures Members(s + t) == Members(s) + Members(t)
  {
    assert forall k :: k in s + t <==> k in s || k in t;
  }

  lemma OrderedConcat(s: seq<Key>, t: seq<Key>)
    requires Ordered(s) && Ordered(t)
    ensures Ordered(s + t) <==> AllBefore(s, t)
  {
    var u := s + t;
    if Ordered(u) {
      forall i, j | 0 <= i < |s| && 0 <= j < |t| ensures Before(s[i], t[j]) {
        assert u[i] == s[i] && u[|s| + j] == t[j];
      }
    }
  }

  /** One set played after another is the two in chain order exactly when the first lies before the second. */
  lemma OneOrderIff(a: set<Key>, b: set<Key>)
    ensures InOrder(a) + InOrder(b) == InOrder(a + b) <==> AllBefore(InOrder(a), InOrder(b))
  {
    var s, t := InOrder(a), InOrder(b);
    MembersConcat(s, t);
    OrderedConcat(s, t);
    if Ordered(s + t) {
      InOrderUnique(s + t, InOrder(a + b));
    }
  }

  lemma DisjointParts(s: seq<Key>, t: seq<Key>)
    requires AllBefore(s, t)
    ensures Members(s) !! Members(t)
  {
  }

  lemma {:induction false} SizeOfOrdered(s: seq<Key>)
    requires Ordered(s)
    ensures |Members(s)| == |s|
  {
    NoMembers(s);
    if s != [] {
      HeadIsFirst(s);
      SizeOfOrdered(s[1..]);
    }
  }

  /** The first of what is left is the next in order. */
  lemma NextInOrder(all: seq<Key>, r: nat, k: Key)
    requires Ordered(all) && r <= |all| && IsFirst(k, Members(all[r..]))
    ensures r < |all| && k == all[r]
    ensures Members(all[r..]) - {k} == Members(all[r + 1..]) && all[..r] + [k] == all[..r + 1]
  {
    NoMembers(all[r..]);
    HeadIsFirst(all[r..]);
    assert all[r..][1..] == all[r + 1..];
  }

  /** Selecting the rows of a set in order, up to a limit. */
  method Select(keys: set<Key>, limit: nat) returns (rows: seq<Key>)
    ensures rows == InOrder(keys)[..if limit < |InOrder(keys)| then limit else |InOrder(keys)|]
  {
    rows := [];
    var rest := keys;
    ghost var all := InOrder(keys);
    assert all[0..] == all;
    hide InOrder, Members, Ordered;
    while rest != {} && |rows| < limit
      invariant |rows| <= |all| && rows == all[..|rows|] && rest == Members(all[|rows|..])
      invariant |rows| <= limit
      decreases rest
    {
      SomeFirst(rest);
      var k :| k in rest && forall j :: j in rest ==> j == k || Before(k, j);
      NextInOrder(all, |rows|, k);
      rows := rows + [k];
      rest := rest - {k};
    }
    NoMembers(all[|rows|..]);
  }
}
