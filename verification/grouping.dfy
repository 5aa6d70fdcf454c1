/**
 What `groupExoplanetsByStar` promises: the `forEach`-into-an-object
 computation equals the reference grouping (one group per distinct `kepid`,
 ascending, each holding that star's records in input order), and from that,
 that no record is lost, duplicated or misfiled.
 */
module Grouping {
  import opened Dataset

  /** The planets already collected for `k` before the walk continues. */
  function Prior(stars: StarTable, k: nat): seq<ExoplanetRecord>
  {
    if k in stars then stars[k].planets else []
  }

  predicate WellKeyed(stars: StarTable)
  {
    forall k | k in stars :: stars[k].starId == k
  }

  /** One step of the walk appends `e` to its own star's entry and touches no other. */
  lemma EnterEffect(stars: StarTable, e: ExoplanetRecord)
    requires WellKeyed(stars)
    ensures Enter(stars, e).Keys == stars.Keys + {e.kepid}
    ensures WellKeyed(Enter(stars, e))
    ensures forall k | k in Enter(stars, e) ::
      Prior(Enter(stars, e), k) == Prior(stars, k) + (if e.kepid == k then [e] else [])
  {
  }

  /** The walk creates an entry for exactly the star ids it meets, each under its own key. */
  lemma {:induction false} EnterAllKeys(stars: StarTable, records: seq<ExoplanetRecord>)
    requires WellKeyed(stars)
    ensures EnterAll(stars, records).Keys == stars.Keys + Kepids(records)
    ensures WellKeyed(EnterAll(stars, records))
    decreases |records|
  {
    if records != [] {
      EnterEffect(stars, records[0]);
      EnterAllKeys(Enter(stars, records[0]), records[1..]);
    }
  }

  /** One step of the walk, seen from the entry of `k`. */
  lemma PriorAfterEnter(stars: StarTable, e: ExoplanetRecord, k: nat)
    ensures Prior(Enter(stars, e), k) == Prior(stars, k) + (if e.kepid == k then [e] else [])
  {
    if e.kepid != k {
      assert k in Enter(stars, e) <==> k in stars;
    }
  }

  /** The walk adds exactly the records of each star, in order, behind what was there. */
  lemma {:induction false} EnterAllContents(stars: StarTable, records: seq<ExoplanetRecord>, k: nat)
    ensures Prior(EnterAll(stars, records), k) == Prior(stars, k) + RecordsOf(records, k)
    decreases |records|
  {
    if records != [] {
      var e, rest := records[0], records[1..];
      var mine := if e.kepid == k then [e] else [];
      PriorAfterEnter(stars, e, k);
      EnterAllContents(Enter(stars, e), rest, k);
      assert RecordsOf(records, k) == mine + RecordsOf(rest, k);
      assert EnterAll(stars, records) == EnterAll(Enter(stars, e), rest);
      assert (Prior(stars, k) + mine) + RecordsOf(rest, k) == Prior(stars, k) + (mine + RecordsOf(rest, k));
    }
  }

  lemma {:induction false} ValuesAtIsGroupsFor(records: seq<ExoplanetRecord>, table: StarTable, ks: seq<nat>)
    requires forall k | k in ks :: k in table && table[k] == StarGroup(k, RecordsOf(records, k))
    ensures ValuesAt(table, ks) == GroupsFor(records, ks)
    decreases |ks|
  {
    if ks != [] {
      ValuesAtIsGroupsFor(records, table, ks[1..]);
    }
  }

  /** The source's computation and the reference grouping agree on every input. */
  lemma GroupingMatchesReference(records: seq<ExoplanetRecord>)
    ensures GroupExoplanetsByStar(records) == ReferenceGrouping(records)
  {
    var table := EnterAll(map[], records);
    EnterAllKeys(map[], records);
    assert table.Keys == Kepids(records);
    var ks := SortedKeys(Kepids(records));
    forall k | k in ks
      ensures k in table && table[k] == StarGroup(k, RecordsOf(records, k))
    {
      EnterAllContents(map[], records, k);
    }
    ValuesAtIsGroupsFor(records, table, ks);
  }

  lemma {:induction false} GroupsForShape(records: seq<ExoplanetRecord>, ks: seq<nat>)
    ensures |GroupsFor(records, ks)| == |ks|
    ensures forall i | 0 <= i < |ks| :: GroupsFor(records, ks)[i] == StarGroup(ks[i], RecordsOf(records, ks[i]))
    decreases |ks|
  {
    if ks != [] {
      GroupsForShape(records, ks[1..]);
    }
  }

  /** A record is among the records of `id` exactly when it is an input record with that star id. */
  lemma {:induction false} InRecordsOf(records: seq<ExoplanetRecord>, id: nat, e: ExoplanetRecord)
    ensures e in RecordsOf(records, id) <==> e in records && e.kepid == id
    decreases |records|
  {
    if records != [] {
      InRecordsOf(records[1..], id, e);
      assert records == [records[0]] + records[1..];
    }
  }

  lemma {:induction false} RecordsOfIsSubsequence(records: seq<ExoplanetRecord>, id: nat)
    ensures IsSubsequence(RecordsOf(records, id), records)
    decreases |records|
  {
    if records != [] {
      var rest := records[1..];
      RecordsOfIsSubsequence(rest, id);
      if records[0].kepid != id {
        var a := RecordsOf(records, id);
        assert a == RecordsOf(rest, id);
        if a != [] {
          InRecordsOf(rest, id, a[0]);
          assert a[0].kepid == id;
          assert a[0] != records[0];
        }
      }
    }
  }

  lemma {:induction false} RecordsInSplit(records: seq<ExoplanetRecord>, ids: set<nat>, k: nat)
    requires k !in ids
    ensures multiset(RecordsIn(records, ids + {k}))
         == multiset(RecordsOf(records, k)) + multiset(RecordsIn(records, ids))
    decreases |records|
  {
    if records != [] {
      RecordsInSplit(records[1..], ids, k);
    }
  }

  lemma {:induction false} RecordsInAll(records: seq<ExoplanetRecord>, ids: set<nat>)
    requires Kepids(records) <= ids
    ensures RecordsIn(records, ids) == records
    decreases |records|
  {
    if records != [] {
      assert Kepids(records) == {records[0].kepid} + Kepids(records[1..]);
      RecordsInAll(records[1..], ids);
      assert records == [records[0]] + records[1..];
    }
  }

  /** The keys listed in `ks`. */
  function KeySet(ks: seq<nat>): (ids: set<nat>)
    ensures forall k :: k in ids <==> k in ks
  {
    if ks == [] then {} else {ks[0]} + KeySet(ks[1..])
  }

  lemma {:induction false} FlattenGroupsFor(records: seq<ExoplanetRecord>, ks: seq<nat>)
    requires Increasing(ks)
    ensures multiset(Flatten(GroupsFor(records, ks))) == multiset(RecordsIn(records, KeySet(ks)))
    decreases |ks|
  {
    if ks == [] {
      RecordsInNone(records);
    } else {
      var rest := ks[1..];
      assert Increasing(rest);
      FlattenGroupsFor(records, rest);
      assert ks[0] !in KeySet(rest) by {
        assert forall j | 0 <= j < |rest| :: rest[j] == ks[j + 1] && ks[0] < ks[j + 1];
      }
      RecordsInSplit(records, KeySet(rest), ks[0]);
      assert KeySet(ks) == KeySet(rest) + {ks[0]};
    }
  }

  lemma {:induction false} RecordsInNone(records: seq<ExoplanetRecord>)
    ensures RecordsIn(records, {}) == []
    decreases |records|
  {
    if records != [] {
      RecordsInNone(records[1..]);
    }
  }

  // ---------------------------------------------------------------------------
  // The promised properties, stated on the source's computation
  // ---------------------------------------------------------------------------

  /**
   One non-empty group per distinct `kepid`, in ascending key order; empty
   input gives no groups.
   */
  lemma GroupingOneGroupPerStar(records: seq<ExoplanetRecord>)
    ensures var g := GroupExoplanetsByStar(records);
      && |g| == |Kepids(records)|
      && (forall i, j | 0 <= i < j < |g| :: g[i].starId < g[j].starId)
      && (forall i | 0 <= i < |g| :: g[i].starId in Kepids(records) && g[i].planets != [])
      && (forall e | e in records :: exists i | 0 <= i < |g| :: g[i].starId == e.kepid)
      && (records == [] ==> g == [])
  {
    GroupingMatchesReference(records);
    var ks := SortedKeys(Kepids(records));
    GroupsForShape(records, ks);
    var g := GroupExoplanetsByStar(records);
    forall i | 0 <= i < |g|
      ensures g[i].starId in Kepids(records) && g[i].planets != []
    {
      var id := ks[i];
      assert id in ks;
      var e :| e in records && e.kepid == id;
      InRecordsOf(records, id, e);
    }
    forall e | e in records
      ensures exists i | 0 <= i < |g| :: g[i].starId == e.kepid
    {
      var i :| 0 <= i < |ks| && ks[i] == e.kepid;
      assert g[i].starId == e.kepid;
    }
  }

  /**
   Every record lands in exactly one group, the one keyed by its own `kepid`,
   and groups contain nothing but input records.
   */
  lemma GroupingPlacesEveryRecord(records: seq<ExoplanetRecord>)
    ensures var g := GroupExoplanetsByStar(records);
      && (forall i, e | 0 <= i < |g| && e in records :: e in g[i].planets <==> g[i].starId == e.kepid)
      && (forall i, e | 0 <= i < |g| && e in g[i].planets :: e in records)
      && (forall i, j, e | 0 <= i < |g| && 0 <= j < |g| && e in g[i].planets && e in g[j].planets :: i == j)
  {
    GroupingMatchesReference(records);
    var ks := SortedKeys(Kepids(records));
    GroupsForPlaces(records, ks, GroupExoplanetsByStar(records));
  }

  /** Groups for distinct star ids place each input record in exactly the group of its own star. */
  lemma GroupsForPlaces(records: seq<ExoplanetRecord>, ks: seq<nat>, g: seq<StarGroup>)
    requires Increasing(ks) && g == GroupsFor(records, ks)
    ensures && (forall i, e | 0 <= i < |g| && e in records :: e in g[i].planets <==> g[i].starId == e.kepid)
      && (forall i, e | 0 <= i < |g| && e in g[i].planets :: e in records)
      && (forall i, j, e | 0 <= i < |g| && 0 <= j < |g| && e in g[i].planets && e in g[j].planets :: i == j)
  {
    GroupsForShape(records, ks);
    forall i, e | 0 <= i < |g| && e in records
      ensures e in g[i].planets <==> g[i].starId == e.kepid
    {
      InRecordsOf(records, ks[i], e);
    }
    forall i, e | 0 <= i < |g| && e in g[i].planets
      ensures e in records
    {
      InRecordsOf(records, ks[i], e);
    }
    forall i, j, e | 0 <= i < |g| && 0 <= j < |g| && e in g[i].planets && e in g[j].planets
      ensures i == j
    {
      InRecordsOf(records, ks[i], e);
      InRecordsOf(records, ks[j], e);
    }
  }

  /** Within a group the records keep their input relative order. */
  lemma GroupingKeepsInputOrder(records: seq<ExoplanetRecord>)
    ensures var g := GroupExoplanetsByStar(records);
      forall i | 0 <= i < |g| :: IsSubsequence(g[i].planets, records)
  {
    GroupingMatchesReference(records);
    var ks := SortedKeys(Kepids(records));
    GroupsForShape(records, ks);
    var g := GroupExoplanetsByStar(records);
    forall i | 0 <= i < |g|
      ensures IsSubsequence(g[i].planets, records)
    {
      RecordsOfIsSubsequence(records, ks[i]);
    }
  }

  /** No record is dropped or duplicated: the groups together are a permutation of the input. */
  lemma GroupingIsLossless(records: seq<ExoplanetRecord>)
    ensures multiset(Flatten(GroupExoplanetsByStar(records))) == multiset(records)
  {
    GroupingMatchesReference(records);
    var ks := SortedKeys(Kepids(records));
    FlattenGroupsFor(records, ks);
    assert KeySet(ks) == Kepids(records);
    RecordsInAll(records, Kepids(records));
  }

  lemma {:induction false} RecordsOfLength(records: seq<ExoplanetRecord>, id: nat)
    ensures |RecordsOf(records, id)| <= |records|
    decreases |records|
  {
    if records != [] {
      RecordsOfLength(records[1..], id);
    }
  }

  /** No group is larger than the input. */
  lemma GroupSizesBounded(records: seq<ExoplanetRecord>)
    ensures var g := GroupExoplanetsByStar(records);
      forall i | 0 <= i < |g| :: |g[i].planets| <= |records|
  {
    GroupingMatchesReference(records);
    var ks := SortedKeys(Kepids(records));
    GroupsForShape(records, ks);
    forall i | 0 <= i < |ks|
      ensures |RecordsOf(records, ks[i])| <= |records|
    {
      RecordsOfLength(records, ks[i]);
    }
  }
}
