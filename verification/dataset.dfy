/**
 The exoplanet dataset and its grouping into star systems
 (`groupExoplanetsByStar` in exoplanets-exploration/js/main.js).

 The source walks the records in order, keeps an object `stars` keyed by
 `kepid` whose values are `{ starId, planets }`, appends each record to the
 entry of its star, and returns `Object.values(stars)`. Because `kepid` is a
 non-negative integer, JavaScript enumerates those keys in ascending numeric
 order, not in order of first appearance; the model reproduces that.
 */
module Dataset {
  import opened Wrappers

  /** One row of the dataset. Numeric columns may be missing (`None`). */
  datatype ExoplanetRecord = ExoplanetRecord(
    kepid: nat,
    kepoiName: string,
    koiName: string,
    period: Option<real>,
    prad: Option<real>,
    teq: Option<real>,
    kepmag: Option<real>,
    insol: Option<real>,
    ra: string,
    dec: string)

  /** `{ starId, planets }`: a star and the records of its planets, in input order. */
  datatype StarGroup = StarGroup(starId: nat, planets: seq<ExoplanetRecord>)

  /** The `stars` object that grouping builds, keyed by `kepid`. */
  type StarTable = map<nat, StarGroup>

  // ---------------------------------------------------------------------------
  // The grouping as the source computes it
  // ---------------------------------------------------------------------------

  /** One `forEach` step: create the star's entry if it is missing, then append the record. */
  function Enter(stars: StarTable, e: ExoplanetRecord): StarTable
  {
    var group := if e.kepid in stars then stars[e.kepid] else StarGroup(e.kepid, []);
    stars[e.kepid := group.(planets := group.planets + [e])]
  }

  /** The whole `forEach`, left to right. */
  function EnterAll(stars: StarTable, records: seq<ExoplanetRecord>): StarTable
    decreases |records|
  {
    if records == [] then stars else EnterAll(Enter(stars, records[0]), records[1..])
  }

  predicate Increasing(ks: seq<nat>)
  {
    forall i, j | 0 <= i < j < |ks| :: ks[i] < ks[j]
  }

  predicate IsLeast(m: nat, keys: set<nat>)
  {
    m in keys && forall k | k in keys :: m <= k
  }

  lemma LeastExists(keys: set<nat>)
    requires keys != {}
    ensures exists m :: IsLeast(m, keys)
    decreases keys
  {
    var x :| x in keys;
    if keys - {x} != {} {
      LeastExists(keys - {x});
      var m :| IsLeast(m, keys - {x});
      assert forall k | k in keys :: k == x || k in keys - {x};
      if m < x {
        assert IsLeast(m, keys);
      } else {
        assert IsLeast(x, keys);
      }
    } else {
      assert keys == {x};
      assert IsLeast(x, keys);
    }
  }

  /** The enumeration order of integer keys: ascending, each key once. */
  function SortedKeys(keys: set<nat>): (ks: seq<nat>)
    ensures Increasing(ks)
    ensures forall k :: k in ks <==> k in keys
    ensures |ks| == |keys|
    decreases keys
  {
    if keys == {} then []
    else
      LeastExists(keys);
      var m :| IsLeast(m, keys);
      var rest := SortedKeys(keys - {m});
      PrependSmaller(m, rest);
      assert keys == (keys - {m}) + {m};
      [m] + rest
  }

  /** A key below every key of an increasing list keeps it increasing when put in front. */
  lemma PrependSmaller(m: nat, rest: seq<nat>)
    requires Increasing(rest)
    requires forall k | k in rest :: m < k
    ensures Increasing([m] + rest)
  {
    forall i, j | 0 <= i < j < |[m] + rest|
      ensures ([m] + rest)[i] < ([m] + rest)[j]
    {
      assert ([m] + rest)[j] == rest[j - 1];
      assert rest[j - 1] in rest;
      if i > 0 {
        assert ([m] + rest)[i] == rest[i - 1];
      }
    }
  }

  /** The values stored under `ks`, in that order. */
  function ValuesAt(stars: StarTable, ks: seq<nat>): seq<StarGroup>
    requires forall k | k in ks :: k in stars
  {
    if ks == [] then [] else [stars[ks[0]]] + ValuesAt(stars, ks[1..])
  }

  /** `Object.values` on an object whose keys are all integer-like. */
  function ObjectValues(stars: StarTable): seq<StarGroup>
  {
    ValuesAt(stars, SortedKeys(stars.Keys))
  }

  /** `groupExoplanetsByStar`. */
  function GroupExoplanetsByStar(records: seq<ExoplanetRecord>): seq<StarGroup>
  {
    ObjectValues(EnterAll(map[], records))
  }

  // ---------------------------------------------------------------------------
  // An independent description of the intended result
  // ---------------------------------------------------------------------------

  /** The distinct star ids occurring in `records`. */
  function Kepids(records: seq<ExoplanetRecord>): (ids: set<nat>)
    ensures forall e | e in records :: e.kepid in ids
    ensures forall id | id in ids :: exists e | e in records :: e.kepid == id
  {
    if records == [] then {} else {records[0].kepid} + Kepids(records[1..])
  }

  /** The records of star `id`, in input order. */
  function RecordsOf(records: seq<ExoplanetRecord>, id: nat): seq<ExoplanetRecord>
  {
    if records == [] then []
    else (if records[0].kepid == id then [records[0]] else []) + RecordsOf(records[1..], id)
  }

  /** The records whose star id is in `ids`, in input order. */
  function RecordsIn(records: seq<ExoplanetRecord>, ids: set<nat>): seq<ExoplanetRecord>
  {
    if records == [] then []
    else (if records[0].kepid in ids then [records[0]] else []) + RecordsIn(records[1..], ids)
  }

  function GroupsFor(records: seq<ExoplanetRecord>, ks: seq<nat>): seq<StarGroup>
  {
    if ks == [] then [] else [StarGroup(ks[0], RecordsOf(records, ks[0]))] + GroupsFor(records, ks[1..])
  }

  /** One group per distinct star id, ascending by id, each holding that star's records. */
  function ReferenceGrouping(records: seq<ExoplanetRecord>): seq<StarGroup>
  {
    GroupsFor(records, SortedKeys(Kepids(records)))
  }

  /** All planets of all groups, group after group. */
  function Flatten(groups: seq<StarGroup>): seq<ExoplanetRecord>
  {
    if groups == [] then [] else groups[0].planets + Flatten(groups[1..])
  }

  /** `a` is `b` with some elements left out, the rest in the same order. */
  predicate IsSubsequence<T(==)>(a: seq<T>, b: seq<T>)
    decreases |b|
  {
    if a == [] then true
    else if b == [] then false
    else if a[0] == b[0] then IsSubsequence(a[1..], b[1..])
    else IsSubsequence(a, b[1..])
  }
}
