/**
 The ordered set of timer keys that both timer schedulers keep (a `BTreeSet` in
 core/web_timeout.rs and core/uv_compat.rs), as a strictly increasing sequence. Keys are
 ordered by deadline, then by id; every key of a tree has its own id, so whatever else a
 key carries never decides a comparison.
 */
module TimerTree {

  type Id = nat

  datatype Key<P> = Key(deadline: nat, id: Id, info: P)

  predicate Less<P>(a: Key<P>, b: Key<P>) {
    a.deadline < b.deadline || (a.deadline == b.deadline && a.id < b.id)
  }

  ghost predicate Sorted<P(!new)>(s: seq<Key<P>>) {
    forall i, j :: 0 <= i < j < |s| ==> Less(s[i], s[j])
  }

  ghost predicate UniqueIds<P(!new)>(s: seq<Key<P>>) {
    forall a, b :: a in s && b in s && a.id == b.id ==> a == b
  }

  ghost function Ids<P>(s: seq<Key<P>>): set<Id> {
    set k | k in s :: k.id
  }

  /** `BTreeSet::insert`. */
  function Insert<P(==,!new)>(s: seq<Key<P>>, k: Key<P>): (r: seq<Key<P>>)
    ensures forall x :: x in r <==> x in s || x == k
  {
    if s == [] then [k]
    else if s[0] == k then s
    else if Less(k, s[0]) then [k] + s
    else
      assert s == [s[0]] + s[1..];
      [s[0]] + Insert(s[1..], k)
  }

  lemma {:induction false} InsertSorted<P(!new)>(s: seq<Key<P>>, k: Key<P>)
    requires Sorted(s) && k.id !in Ids(s)
    ensures Sorted(Insert(s, k)) && |Insert(s, k)| == |s| + 1
    ensures s == [] || Less(k, s[0]) ==> Insert(s, k)[0] == k
    ensures s != [] && !Less(k, s[0]) ==> Insert(s, k)[0] == s[0]
  {
    if s != [] {
      assert s[0].id in Ids(s);
      if !Less(k, s[0]) {
        var r := Insert(s[1..], k);
        assert k.id !in Ids(s[1..]);
        InsertSorted(s[1..], k);
        forall j | 0 <= j < |r| ensures Less(s[0], r[j]) {
          assert r[j] in r;
        }
      }
    }
  }

  /** `BTreeSet::remove`. */
  function Remove<P(==)>(s: seq<Key<P>>, k: Key<P>): (r: seq<Key<P>>) {
    if s == [] then []
    else if s[0] == k then s[1..]
    else [s[0]] + Remove(s[1..], k)
  }

  lemma {:induction false} RemoveSorted<P(!new)>(s: seq<Key<P>>, k: Key<P>)
    requires Sorted(s)
    ensures Sorted(Remove(s, k))
    ensures forall x :: x in Remove(s, k) <==> x in s && x != k
  {
    if s != [] {
      var r := Remove(s[1..], k);
      assert s == [s[0]] + s[1..];
      RemoveSorted(s[1..], k);
      if s[0] == k {
        assert forall j :: 0 <= j < |s[1..]| ==> s[1..][j] == s[j + 1] != k;
      } else {
        forall j | 0 <= j < |r| ensures Less(s[0], r[j]) {
          assert r[j] in r;
        }
      }
    }
  }

  /** The number of keys with a deadline before `now`: where `split_off` cuts. */
  function Due<P>(s: seq<Key<P>>, now: nat): (n: nat)
    ensures n <= |s|
  {
    if s == [] || s[0].deadline >= now then 0 else 1 + Due(s[1..], now)
  }

  lemma {:induction false} DueSplits<P(!new)>(s: seq<Key<P>>, now: nat)
    requires Sorted(s)
    ensures forall k :: k in s[..Due(s, now)] <==> k in s && k.deadline < now
    ensures forall k :: k in s[Due(s, now)..] <==> k in s && k.deadline >= now
    ensures Sorted(s[..Due(s, now)]) && Sorted(s[Due(s, now)..])
  {
    if s != [] {
      if s[0].deadline >= now {
        assert forall j :: 0 <= j < |s| ==> s[j].deadline >= now;
      } else {
        var n := Due(s[1..], now);
        DueSplits(s[1..], now);
        assert s == [s[0]] + s[1..];
        assert s[..n + 1] == [s[0]] + s[1..][..n];
        assert s[n + 1..] == s[1..][n..];
      }
    }
  }

  /** `BTreeSet::retain`, keeping the given ids. */
  function Retain<P>(s: seq<Key<P>>, ids: set<Id>): seq<Key<P>> {
    if s == [] then []
    else Retain(s[..|s| - 1], ids) + if s[|s| - 1].id in ids then [s[|s| - 1]] else []
  }

  lemma {:induction false} RetainSorted<P(!new)>(s: seq<Key<P>>, ids: set<Id>)
    requires Sorted(s)
    ensures Sorted(Retain(s, ids)) && |Retain(s, ids)| <= |s|
    ensures forall k :: k in Retain(s, ids) <==> k in s && k.id in ids
  {
    if s != [] {
      var pre, last := s[..|s| - 1], s[|s| - 1];
      var r := Retain(pre, ids);
      RetainSorted(pre, ids);
      assert s == pre + [last];
      forall j | 0 <= j < |r| ensures Less(r[j], last) {
        assert r[j] in r;
      }
    }
  }

  /** A tree with unique ids has as many ids as keys. */
  lemma {:induction false} IdCount<P(!new)>(s: seq<Key<P>>)
    requires Sorted(s) && UniqueIds(s)
    ensures |Ids(s)| == |s|
  {
    if s != [] {
      var pre, last := s[..|s| - 1], s[|s| - 1];
      assert s == pre + [last];
      IdCount(pre);
      forall k | k in pre ensures k.id != last.id {
        assert k in s && last in s && k != last;
      }
      assert Ids(s) == Ids(pre) + {last.id};
    }
  }
}
