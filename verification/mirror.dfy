/** The local mirror as a value: an ordered sequence of client records keyed
    by `jid`, with the lookups and the three edits the session applies to it
    (replace-or-append by key, filter out by key, append). */
module Mirror {
  import opened CloudTypes

  /** Some record of `s` carries the key `jid`. */
  ghost predicate Has(s: seq<Client>, jid: string) {
    exists k :: 0 <= k < |s| && s[k].jid == jid
  }

  /** `k` is the position of the first record of `s` keyed `jid`. */
  ghost predicate IsFirstMatch(s: seq<Client>, jid: string, k: int) {
    0 <= k < |s| && s[k].jid == jid && forall m :: 0 <= m < k ==> s[m].jid != jid
  }

  /** No two records of `s` share a key. */
  ghost predicate Unique(s: seq<Client>) {
    forall i, j :: 0 <= i < j < |s| ==> s[i].jid != s[j].jid
  }

  /** The number of records of `s` keyed `jid`. */
  ghost function Count(s: seq<Client>, jid: string): nat {
    if s == [] then 0 else (if s[0].jid == jid then 1 else 0) + Count(s[1..], jid)
  }

  /** Array `findIndex` by key: the first position holding `jid`, or -1. */
  function FindIndex(s: seq<Client>, jid: string): (r: int)
    ensures -1 <= r < |s|
    ensures r >= 0 ==> IsFirstMatch(s, jid, r)
    ensures r == -1 <==> !Has(s, jid)
  {
    if s == [] then -1
    else if s[0].jid == jid then 0
    else
      var i := FindIndex(s[1..], jid);
      assert forall m :: 1 <= m < |s| ==> s[m] == s[1..][m - 1];
      if i == -1 then -1 else i + 1
  }

  /** Array `find` by key, with a miss turned into null: the first record
      keyed `jid`, if any. */
  function Find(s: seq<Client>, jid: string): (r: Option<Client>)
    ensures r.Some? <==> Has(s, jid)
    ensures r.Some? ==> r.value.jid == jid
    ensures r.Some? ==> exists k :: IsFirstMatch(s, jid, k) && s[k] == r.value
  {
    var i := FindIndex(s, jid);
    if i >= 0 then Some(s[i]) else None
  }

  /** Array `filter` keeping the records whose key is not `jid`. */
  function Without(s: seq<Client>, jid: string): (r: seq<Client>)
    ensures forall c :: c in r <==> c in s && c.jid != jid
    ensures |r| == |s| - Count(s, jid)
  {
    if s == [] then []
    else if s[0].jid == jid then Without(s[1..], jid)
    else [s[0]] + Without(s[1..], jid)
  }

  /** Replace the first record keyed `jid` by `c`, or append `c` when no
      record has that key. */
  function Upsert(s: seq<Client>, jid: string, c: Client): (r: seq<Client>)
    ensures |r| == if Has(s, jid) then |s| else |s| + 1
    ensures forall k :: 0 <= k < |s| ==> r[k] == if IsFirstMatch(s, jid, k) then c else s[k]
    ensures !Has(s, jid) ==> r[|s|] == c
  {
    var i := FindIndex(s, jid);
    if i >= 0 then s[i := c] else s + [c]
  }

  /** A key occurs in `s` exactly when it is counted. */
  lemma {:induction false} CountZero(s: seq<Client>, jid: string)
    ensures Count(s, jid) == 0 <==> !Has(s, jid)
  {
    if s != [] {
      CountZero(s[1..], jid);
      assert forall m :: 1 <= m < |s| ==> s[m] == s[1..][m - 1];
    }
  }

  /** In a mirror without duplicate keys a present key occurs once. */
  lemma {:induction false} UniqueCountOne(s: seq<Client>, jid: string)
    requires Unique(s) && Has(s, jid)
    ensures Count(s, jid) == 1
  {
    assert forall m :: 1 <= m < |s| ==> s[m] == s[1..][m - 1];
    if s[0].jid == jid {
      CountZero(s[1..], jid);
    } else {
      UniqueCountOne(s[1..], jid);
    }
  }

  /** Deleting a key that is present in a mirror without duplicate keys
      shortens it by exactly one record. */
  lemma DeleteShrinksByOne(s: seq<Client>, jid: string)
    requires Unique(s) && Has(s, jid)
    ensures |Without(s, jid)| == |s| - 1
  {
    UniqueCountOne(s, jid);
  }

  /** Filtering distributes over concatenation, so the surviving records
      keep their relative order. */
  lemma {:induction false} WithoutAppend(a: seq<Client>, b: seq<Client>, jid: string)
    ensures Without(a + b, jid) == Without(a, jid) + Without(b, jid)
  {
    if a != [] {
      assert (a + b)[0] == a[0];
      assert (a + b)[1..] == a[1..] + b;
      WithoutAppend(a[1..], b, jid);
    } else {
      assert a + b == b;
    }
  }

  /** Filtering out a key that is absent changes nothing; in particular
      filtering twice is the same as filtering once. */
  lemma {:induction false} WithoutAbsent(s: seq<Client>, jid: string)
    requires !Has(s, jid)
    ensures Without(s, jid) == s
  {
    if s != [] {
      assert forall m :: 1 <= m < |s| ==> s[m] == s[1..][m - 1];
      WithoutAbsent(s[1..], jid);
    }
  }

  /** A mirror with a record in front has distinct keys exactly when the
      rest does and the front key does not occur in it. */
  lemma UniqueCons(c: Client, t: seq<Client>)
    ensures Unique([c] + t) <==> Unique(t) && forall x :: x in t ==> x.jid != c.jid
  {
    var s := [c] + t;
    assert forall m :: 1 <= m < |s| ==> s[m] == t[m - 1];
    if Unique(t) && forall x :: x in t ==> x.jid != c.jid {
      forall i, j | 0 <= i < j < |s| ensures s[i].jid != s[j].jid {
        if i == 0 {
          assert s[j] in t;
        }
      }
    }
    if Unique(s) {
      forall i, j | 0 <= i < j < |t| ensures t[i].jid != t[j].jid {
        assert s[i + 1] == t[i] && s[j + 1] == t[j];
      }
      forall x | x in t ensures x.jid != c.jid {
        var j :| 0 <= j < |t| && t[j] == x;
        assert s[0] == c && s[j + 1] == x;
      }
    }
  }

  /** Filtering keeps keys distinct. */
  lemma {:induction false} WithoutKeepsUnique(s: seq<Client>, jid: string)
    requires Unique(s)
    ensures Unique(Without(s, jid))
  {
    if s != [] {
      assert s == [s[0]] + s[1..];
      UniqueCons(s[0], s[1..]);
      WithoutKeepsUnique(s[1..], jid);
      if s[0].jid != jid {
        UniqueCons(s[0], Without(s[1..], jid));
      }
    }
  }

  /** Two first matches are the same position. */
  lemma FirstMatchUnique(s: seq<Client>, jid: string, i: int, k: int)
    requires IsFirstMatch(s, jid, i) && IsFirstMatch(s, jid, k)
    ensures i == k
  {
  }

  /** After a replace-or-append under the record's own key, a lookup of
      that key finds the new record. */
  lemma UpsertThenFind(s: seq<Client>, c: Client)
    ensures Find(Upsert(s, c.jid, c), c.jid) == Some(c)
  {
  }

  /** A replace-or-append under the record's own key keeps keys distinct,
      and the key then occurs exactly once. */
  lemma UpsertKeepsUnique(s: seq<Client>, c: Client)
    requires Unique(s)
    ensures Unique(Upsert(s, c.jid, c))
    ensures Count(Upsert(s, c.jid, c), c.jid) == 1
  {
    var r := Upsert(s, c.jid, c);
    var i := FindIndex(s, c.jid);
    if i >= 0 {
      assert r == s[i := c];
      forall a, b | 0 <= a < b < |r| ensures r[a].jid != r[b].jid {
        if a == i || b == i {
          assert s[a].jid != s[b].jid;
        }
      }
    } else {
      forall a, b | 0 <= a < b < |r| ensures r[a].jid != r[b].jid {
        if b == |s| {
          assert s[a].jid != c.jid;
        }
      }
    }
    assert r[if i >= 0 then i else |s|].jid == c.jid;
    UniqueCountOne(r, c.jid);
  }

  /** Appending a record whose key is new keeps keys distinct, and a lookup
      of that key then finds it. */
  lemma CreateThenFind(s: seq<Client>, c: Client)
    requires !Has(s, c.jid)
    ensures Find(s + [c], c.jid) == Some(c)
    ensures Unique(s) ==> Unique(s + [c])
  {
    var r := s + [c];
    assert IsFirstMatch(r, c.jid, |s|);
    var k :| IsFirstMatch(r, c.jid, k) && r[k] == Find(r, c.jid).value;
    FirstMatchUnique(r, c.jid, |s|, k);
  }

  /** Appending a record whose key is already present leaves the earlier
      record in front: a lookup of that key still finds the old one. */
  lemma CreateDuplicateShadowed(s: seq<Client>, c: Client)
    requires Has(s, c.jid)
    ensures Find(s + [c], c.jid) == Find(s, c.jid)
    ensures !Unique(s + [c])
  {
    var r := s + [c];
    var i := FindIndex(s, c.jid);
    assert IsFirstMatch(r, c.jid, i);
    var k :| IsFirstMatch(r, c.jid, k) && r[k] == Find(r, c.jid).value;
    FirstMatchUnique(r, c.jid, i, k);
    assert r[i].jid == r[|s|].jid;
  }
}
