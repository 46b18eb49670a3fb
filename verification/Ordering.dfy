/** The order of the notification list, newest first, and sorted lists of keys. */
module Ordering {
  import opened Uuids

  /** The creation time and the identifier, by which rows are ordered. */
  datatype Key = Key(at: int, id: Uuid)

  /** Does a come before b in the list? */
  predicate Above(a: Key, b: Key)
  {
    a.at > b.at || (a.at == b.at && a.id > b.id)
  }

  predicate Descending(ks: seq<Key>)
  {
    forall i, j | 0 <= i < j < |ks| :: Above(ks[i], ks[j])
  }

  function Elements(ks: seq<Key>): set<Key>
  {
    set k | k in ks
  }

  function Below(s: set<Key>, k: Key): set<Key>
  {
    set j | j in s && Above(k, j)
  }

  predicate IsTop(s: set<Key>, k: Key)
  {
    k in s && forall j | j in s :: j == k || Above(k, j)
  }

  lemma {:induction false} SomeTop(s: set<Key>) returns (top: Key)
    requires s != {}
    ensures IsTop(s, top)
    decreases |s|
  {
    top :| top in s;
    var rest := s - {top};
    if rest == {} {
      assert s == {top};
    } else {
      var best := SomeTop(rest);
      assert s == rest + {top};
      if !Above(top, best) {
        top := best;
      }
    }
  }

  lemma HasTop(s: set<Key>)
    requires s != {}
    ensures exists top :: top in s && IsTop(s, top)
  {
    var _ := SomeTop(s);
  }

  function Top(s: set<Key>): (top: Key)
    requires s != {}
    ensures IsTop(s, top)
  {
    HasTop(s);
    var top :| top in s && IsTop(s, top);
    top
  }

  function Sorted(s: set<Key>): (ks: seq<Key>)
    ensures |ks| == |s| && Elements(ks) == s
    decreases |s|
  {
    if s == {} then []
    else
      var ks := [Top(s)] + Sorted(s - {Top(s)});
      assert forall k :: k in ks <==> k == Top(s) || k in Elements(Sorted(s - {Top(s)}));
      ks
  }

  lemma {:induction false} SortedDescends(s: set<Key>)
    ensures Descending(Sorted(s))
    decreases |s|
  {
    if s != {} {
      var rest := Sorted(s - {Top(s)});
      SortedDescends(s - {Top(s)});
      forall j | 0 <= j < |rest| ensures Above(Top(s), rest[j]) {
        assert rest[j] in Elements(rest);
      }
    }
  }

  /** There is only one way to list a set in order. */
  lemma {:induction false} OnlyOrder(ks: seq<Key>, ls: seq<Key>)
    requires Descending(ks) && Descending(ls) && Elements(ks) == Elements(ls)
    ensures ks == ls
    decreases |ks|
  {
    if ks == [] {
      if ls != [] {
        HeadIsElement(ls);
        assert false;
      }
    } else {
      SameHead(ks, ls);
      TailElements(ks);
      TailElements(ls);
      hide Elements;
      OnlyOrder(ks[1..], ls[1..]);
    }
  }

  lemma HeadIsElement(ks: seq<Key>)
    requires ks != []
    ensures ks[0] in Elements(ks)
  {}

  lemma SameHead(ks: seq<Key>, ls: seq<Key>)
    requires Descending(ks) && Descending(ls) && Elements(ks) == Elements(ls) && ks != []
    ensures ls != [] && ls[0] == ks[0]
  {
    assert ks[0] in Elements(ls);
    assert ls[0] in Elements(ks);
    var i :| 0 <= i < |ls| && ls[i] == ks[0];
    var j :| 0 <= j < |ks| && ks[j] == ls[0];
  }

  lemma TailElements(ks: seq<Key>)
    requires ks != [] && Descending(ks)
    ensures Elements(ks[1..]) == Elements(ks) - {ks[0]} && Descending(ks[1..])
  {
    assert forall k :: k in ks <==> k == ks[0] || k in ks[1..];
    assert ks[0] !in ks[1..];
  }

  lemma RestElements(s: set<Key>, ks: seq<Key>, n: nat)
    requires Descending(ks) && Elements(ks) == s && 0 < n <= |ks|
    ensures Elements(ks[n..]) == Below(s, ks[n - 1]) && Descending(ks[n..])
  {
    var last := ks[n - 1];
    forall k ensures k in Elements(ks[n..]) <==> k in Below(s, last) {
      if k in ks[n..] {
        var i :| 0 <= i < |ks[n..]| && ks[n..][i] == k;
        assert ks[n + i] == k && k in Elements(ks);
      }
      if k in Below(s, last) {
        assert k in Elements(ks);
        var i :| 0 <= i < |ks| && ks[i] == k;
        assert i >= n;
        assert ks[n..][i - n] == k;
      }
    }
  }

  /** What comes after the n-th key of a list is the list of what lies below that key. */
  lemma RestIsBelow(s: set<Key>, n: nat)
    requires 0 < n <= |s|
    ensures Sorted(Below(s, Sorted(s)[n - 1])) == Sorted(s)[n..]
  {
    var ks := Sorted(s);
    SortedDescends(s);
    SortedDescends(Below(s, ks[n - 1]));
    RestElements(s, ks, n);
    hide Elements, Below, Descending;
    OnlyOrder(Sorted(Below(s, ks[n - 1])), ks[n..]);
  }
}
