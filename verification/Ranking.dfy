/**
 The ranking of queued tracks: votes descending, FIFO number ascending, cut at a
 limit. A ranking is specified as the strictly sorted listing of a set of entries;
 it exists and is unique as soon as no two entries share a FIFO number.
 */
module Ranking {
  import opened Common

  /** One queued track as the ranking query returns it. */
  datatype Entry = Entry(id: int, votes: nat, fifo: nat, proposer: Option<string>)

  /** `a` is listed before `b`. */
  predicate Ahead(a: Entry, b: Entry) {
    a.votes > b.votes || (a.votes == b.votes && a.fifo < b.fifo)
  }

  ghost predicate Sorted(s: seq<Entry>) {
    forall i, j :: 0 <= i < j < |s| ==> Ahead(s[i], s[j])
  }

  ghost predicate DistinctFifo(es: set<Entry>) {
    forall a, b :: a in es && b in es && a.fifo == b.fifo ==> a == b
  }

  function Elements(s: seq<Entry>): set<Entry> {
    set x | x in s
  }

  ghost predicate IsRanking(s: seq<Entry>, es: set<Entry>) {
    Sorted(s) && Elements(s) == es
  }

  // ---------- existence and uniqueness ----------

  /** Every entry before `i` is ahead of `e`, every entry from `i` on is behind it. */
  ghost predicate SplitsAt(s: seq<Entry>, e: Entry, i: nat) {
    && i <= |s|
    && (forall j :: 0 <= j < i ==> Ahead(s[j], e))
    && (forall j :: i <= j < |s| ==> Ahead(e, s[j]))
  }

  lemma InsertKeepsRanking(s: seq<Entry>, es: set<Entry>, e: Entry, i: nat)
    requires IsRanking(s, es) && SplitsAt(s, e, i)
    ensures IsRanking(s[..i] + [e] + s[i..], es + {e})
  {
    var t := s[..i] + [e] + s[i..];
    forall x ensures x in t <==> x in es + {e} {
      assert t[i] == e;
      if x in es {
        assert x in Elements(s);
        var k :| 0 <= k < |s| && s[k] == x;
        assert t[if k < i then k else k + 1] == x;
      }
    }
    assert Elements(t) == es + {e};
  }

  lemma InsertionPoint(s: seq<Entry>, e: Entry) returns (i: nat)
    requires Sorted(s)
    requires forall x :: x in s ==> x.fifo != e.fifo
    ensures SplitsAt(s, e, i)
  {
    i := 0;
    while i < |s| && Ahead(s[i], e)
      invariant i <= |s|
      invariant forall j :: 0 <= j < i ==> Ahead(s[j], e)
    {
      i := i + 1;
    }
  }

  lemma RankingExtends(s: seq<Entry>, es: set<Entry>, e: Entry)
    requires IsRanking(s, es)
    requires forall x :: x in es ==> x.fifo != e.fifo
    ensures exists t :: IsRanking(t, es + {e})
  {
    forall x: Entry | x in s ensures x.fifo != e.fifo {
      assert x in Elements(s);
    }
    var i := InsertionPoint(s, e);
    InsertKeepsRanking(s, es, e, i);
  }

  lemma RankingExists(es: set<Entry>)
    requires DistinctFifo(es)
    ensures exists s :: IsRanking(s, es)
    decreases |es|
  {
    if es == {} {
      assert IsRanking([], es);
    } else {
      var e :| e in es;
      var rest := es - {e};
      RankingExists(rest);
      var s :| IsRanking(s, rest);
      RankingExtends(s, rest, e);
      assert rest + {e} == es;
    }
  }

  /** Dropping one position of a ranking gives the ranking of the remaining entries. */
  lemma DropKeepsRanking(s: seq<Entry>, es: set<Entry>, i: nat)
    requires IsRanking(s, es) && i < |s|
    ensures IsRanking(s[..i] + s[i + 1..], es - {s[i]})
  {
    var t := s[..i] + s[i + 1..];
    forall x ensures x in t <==> x in es - {s[i]} {
      if x in t {
        var k :| 0 <= k < |t| && t[k] == x;
        var m := if k < i then k else k + 1;
        assert s[m] == x && m != i;
        assert x in Elements(s);
        assert x != s[i];
      }
      if x in es - {s[i]} {
        assert x in Elements(s);
        var k :| 0 <= k < |s| && s[k] == x;
        assert t[if k < i then k else k - 1] == x;
      }
    }
    assert Elements(t) == es - {s[i]};
  }

  /** Sorted listings of the same set are equal, so the ranking is unique. */
  lemma {:induction false} RankingUnique(s: seq<Entry>, t: seq<Entry>, es: set<Entry>)
    requires IsRanking(s, es) && IsRanking(t, es)
    ensures s == t
    decreases |s|
  {
    assert s != [] ==> s[0] in Elements(s);
    assert t != [] ==> t[0] in Elements(t);
    if s == [] || t == [] {
    } else {
      assert s[0] in Elements(s) && t[0] in Elements(t);
      assert s[0] in t && t[0] in s;
      assert s[0] == t[0];
      DropKeepsRanking(s, es, 0);
      DropKeepsRanking(t, es, 0);
      assert s[..0] + s[0 + 1..] == s[1..] && t[..0] + t[0 + 1..] == t[1..];
      RankingUnique(s[1..], t[1..], es - {s[0]});
    }
  }

  /** The one ranking of a set of entries. */
  ghost function Rank(es: set<Entry>): (s: seq<Entry>)
    requires DistinctFifo(es)
    ensures IsRanking(s, es)
  {
    RankingExists(es);
    var s :| IsRanking(s, es);
    s
  }

  lemma RankLength(s: seq<Entry>, es: set<Entry>)
    requires IsRanking(s, es)
    ensures |s| == |es|
    decreases |s|
  {
    if s == [] {
      assert es == {};
    } else {
      assert s[0] in Elements(s);
      DropKeepsRanking(s, es, 0);
      RankLength(s[..0] + s[0 + 1..], es - {s[0]});
    }
  }

  // ---------- the k best ----------

  function Min(a: nat, b: nat): nat {
    if a < b then a else b
  }

  ghost function TopK(es: set<Entry>, k: nat): (s: seq<Entry>)
    requires DistinctFifo(es)
  {
    var all := Rank(es);
    all[..Min(k, |all|)]
  }

  /** What "the k best" means, without reference to how they are found. */
  ghost predicate IsTopK(s: seq<Entry>, es: set<Entry>, k: nat) {
    && Sorted(s)
    && Elements(s) <= es
    && |s| == Min(k, |es|)
    && (forall x, y :: x in s && y in es && y !in s ==> Ahead(x, y))
  }

  /** The listing is the top k if and only if it is `TopK`: order, membership, length
      and the rule about omitted entries leave no choice. */
  lemma {:induction false} TopKUnique(s: seq<Entry>, es: set<Entry>, k: nat)
    requires DistinctFifo(es)
    ensures IsTopK(s, es, k) <==> s == TopK(es, k)
  {
    var all := Rank(es);
    RankLength(all, es);
    var top := TopK(es, k);
    if s == top {
      TopKHolds(es, k);
    }
    if IsTopK(s, es, k) {
      // s followed by the ranking of what it omits is a ranking of everything
      var omitted := es - Elements(s);
      var rest := Rank(omitted);
      var glued := s + rest;
      forall i, j | 0 <= i < j < |glued| ensures Ahead(glued[i], glued[j]) {
        if i < |s| <= j {
          assert glued[j] in Elements(rest);
          assert glued[j] in omitted;
        }
      }
      assert Elements(glued) == Elements(s) + Elements(rest);
      RankingUnique(glued, all, es);
      assert glued[..|s|] == s;
    }
  }

  lemma TopKHolds(es: set<Entry>, k: nat)
    requires DistinctFifo(es)
    ensures IsTopK(TopK(es, k), es, k)
  {
    var all := Rank(es);
    RankLength(all, es);
    var s := TopK(es, k);
    forall x | x in Elements(s) ensures x in es {
      assert x in Elements(all);
    }
    forall x, y | x in s && y in es && y !in s ensures Ahead(x, y) {
      assert y in Elements(all);
      var i :| 0 <= i < |s| && s[i] == x;
      var j :| 0 <= j < |all| && all[j] == y;
      assert !(j < |s|);
      assert all[i] == x;
    }
  }

  // ---------- one more vote ----------

  /** The position of an entry is the number of entries ahead of it. */
  lemma {:induction false} PositionIsAheadCount(s: seq<Entry>, es: set<Entry>, i: nat)
    requires IsRanking(s, es) && i < |s|
    ensures i == |set x | x in es && Ahead(x, s[i])|
  {
    var before := s[..i];
    var ahead := set x | x in es && Ahead(x, s[i]);
    forall x ensures x in Elements(before) <==> x in ahead {
      if x in es {
        assert x in Elements(s);
        var k :| 0 <= k < |s| && s[k] == x;
        assert k < i ==> before[k] == x;
      }
    }
    assert Elements(before) == ahead;
    assert IsRanking(before, ahead);
    RankLength(before, ahead);
  }

  lemma FindInRanking(es: set<Entry>, e: Entry) returns (i: nat)
    requires DistinctFifo(es) && e in es
    ensures i < |Rank(es)| && Rank(es)[i] == e
  {
    assert e in Elements(Rank(es));
    i :| 0 <= i < |Rank(es)| && Rank(es)[i] == e;
  }

  function Voted(e: Entry): Entry {
    e.(votes := e.votes + 1)
  }

  /** A vote never worsens the rank of its track and keeps the relative order of all
      other tracks. */
  lemma {:induction false} VoteNeverWorsens(es: set<Entry>, e: Entry) returns (i: nat, j: nat)
    requires DistinctFifo(es) && e in es
    ensures DistinctFifo(es - {e} + {Voted(e)})
    ensures var before := Rank(es);
            var after := Rank(es - {e} + {Voted(e)});
            && i < |before| && before[i] == e
            && j < |after| && after[j] == Voted(e)
            && j <= i
            && |after| == |before|
            && before[..i] + before[i + 1..] == after[..j] + after[j + 1..]
  {
    var es' := es - {e} + {Voted(e)};
    i := FindInRanking(es, e);
    j := FindInRanking(es', Voted(e));
    var before, after := Rank(es), Rank(es');
    PositionIsAheadCount(before, es, i);
    PositionIsAheadCount(after, es', j);
    var a := set x | x in es && Ahead(x, e);
    var b := set x | x in es' && Ahead(x, Voted(e));
    assert b <= a;
    CardinalitySubset(b, a);
    DropKeepsRanking(before, es, i);
    DropKeepsRanking(after, es', j);
    assert es - {e} == es' - {Voted(e)} by {
      if Voted(e) in es { assert Voted(e) == e; }
    }
    RankingUnique(before[..i] + before[i + 1..], after[..j] + after[j + 1..], es - {e});
  }

  lemma CardinalitySubset<T>(a: set<T>, b: set<T>)
    requires a <= b
    ensures |a| <= |b|
  {
    assert a + (b - a) == b;
  }

  /** A vote never drops its track from the k best. */
  lemma {:induction false} VoteKeepsTopK(es: set<Entry>, e: Entry, k: nat)
    requires DistinctFifo(es) && e in TopK(es, k)
    ensures DistinctFifo(es - {e} + {Voted(e)})
    ensures Voted(e) in TopK(es - {e} + {Voted(e)}, k)
  {
    var before := Rank(es);
    var p :| 0 <= p < |TopK(es, k)| && TopK(es, k)[p] == e;
    assert before[p] == e;
    assert e in Elements(before);
    var i, j := VoteNeverWorsens(es, e);
    assert i == p;
    var after := Rank(es - {e} + {Voted(e)});
    assert after[..Min(k, |after|)][j] == Voted(e);
  }
}
