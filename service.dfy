/**
 * `recommender/recommend_service.py`: the requested bias, the merge of the
 * two place lists by identity, the hidden-gem id sets, the pagination window
 * over the scored list, and the health summary of the snapshot.
 */
module Service {
  import opened Wrappers
  import opened Text
  import opened Json
  import opened Ranking
  import opened Scoring
  import opened Loader

  // ---------------------------------------------------------------------------
  // Requested bias
  // ---------------------------------------------------------------------------

  predicate IsBiasTag(s: Option<string>) {
    s == Some(Neujoh) || s == Some(Hotple)
  }

  /**
   * `_detect_requested_bias`: a category naming a source wins; otherwise a
   * non-empty keyword that is, or else contains, a source name (느좋 checked
   * first); otherwise none.
   */
  function DetectBias(category: Option<string>, keyword: Option<string>): (b: Option<string>)
    ensures b == None || IsBiasTag(b)
    ensures IsBiasTag(category) ==> b == category
    ensures !IsBiasTag(category) ==>
      (b == Some(Neujoh) <==> keyword.Some? && Contains(keyword.value, Neujoh))
    ensures !IsBiasTag(category) ==>
      (b == Some(Hotple) <==>
         keyword.Some? && !Contains(keyword.value, Neujoh) && Contains(keyword.value, Hotple))
  {
    if IsBiasTag(category) then category
    else if keyword.Some? && keyword.value != "" then
      var kw := keyword.value;
      if kw == Neujoh || kw == Hotple then
        SameLengthContains(kw, Neujoh);
        SameLengthContains(kw, Hotple);
        keyword
      else if Contains(kw, Neujoh) then Some(Neujoh)
      else if Contains(kw, Hotple) then Some(Hotple)
      else None
    else
      assert keyword.Some? ==> !Contains(keyword.value, Neujoh) && !Contains(keyword.value, Hotple);
      None
  }

  // ---------------------------------------------------------------------------
  // Merge by identity
  // ---------------------------------------------------------------------------

  /** A Python dict keyed by identity: its keys in insertion order, and its values. */
  datatype PyDict = PyDict(order: seq<Json>, vals: map<Json, Record>)

  ghost predicate ValidDict(d: PyDict) {
    && (forall k :: k in d.vals <==> k in d.order)
    && (forall p, q :: 0 <= p < q < |d.order| ==> d.order[p] != d.order[q])
  }

  /** `d[k] = v`: an existing key keeps its position, a new key goes last. */
  function Put(d: PyDict, k: Json, v: Record): (r: PyDict)
    ensures k in r.vals && r.vals[k] == v
    ensures forall j :: j in d.vals && j != k ==> j in r.vals && r.vals[j] == d.vals[j]
    ensures r.vals.Keys == d.vals.Keys + {k}
    ensures |d.order| <= |r.order| <= |d.order| + 1 && r.order[..|d.order|] == d.order
  {
    PyDict(if k in d.vals then d.order else d.order + [k], d.vals[k := v])
  }

  /** `for p in ps: pid = _to_id(p); if pid: d[pid] = p`. */
  function InsertAll(d: PyDict, ps: seq<Record>): (r: PyDict)
    ensures d.vals.Keys <= r.vals.Keys
    ensures |d.order| <= |r.order| && r.order[..|d.order|] == d.order
    decreases |ps|
  {
    if ps == [] then d
    else
      var d' := InsertAll(d, ps[..|ps| - 1]);
      var p := ps[|ps| - 1];
      if HasId(p) then Put(d', ToId(p), p) else d'
  }

  const EmptyDict := PyDict([], map[])

  /** The `merged` dict of `recommend_places`. */
  function Merged(hot: seq<Record>, neu: seq<Record>): (m: PyDict)
    ensures ValidDict(m)
    ensures forall k :: k in m.vals <==> k in Ids(hot) || k in Ids(neu)
    ensures |InsertAll(EmptyDict, hot).order| <= |m.order| && m.order[..|InsertAll(EmptyDict, hot).order|] == InsertAll(EmptyDict, hot).order
  {
    var h := InsertAll(EmptyDict, hot);
    InsertAllOrder(EmptyDict, hot, []);
    assert [] + Ids(hot) == Ids(hot);
    InsertAllOrder(h, neu, Ids(hot));
    InsertAllKeys(EmptyDict, hot);
    InsertAllKeys(h, neu);
    InsertAll(h, neu)
  }

  /** `list(merged.values())`. */
  function Values(d: PyDict): (vs: seq<Record>)
    requires ValidDict(d)
    ensures |vs| == |d.order|
    ensures forall i :: 0 <= i < |vs| ==> vs[i] == d.vals[d.order[i]]
  {
    seq(|d.order|, i requires 0 <= i < |d.order| => d.vals[d.order[i]])
  }

  /** The two filling loops of `recommend_places`. */
  method MergeById(hot: seq<Record>, neu: seq<Record>) returns (merged: PyDict)
    ensures merged == Merged(hot, neu)
  {
    merged := EmptyDict;
    var i := 0;
    while i < |hot|
      invariant 0 <= i <= |hot|
      invariant merged == InsertAll(EmptyDict, hot[..i])
    {
      var p := hot[i];
      var pid := ToId(p);
      if Truthy(pid) {
        merged := Put(merged, pid, p);
      }
      assert hot[..i + 1][..i] == hot[..i];
      i := i + 1;
    }
    assert hot[..i] == hot;
    var j := 0;
    while j < |neu|
      invariant 0 <= j <= |neu|
      invariant merged == InsertAll(InsertAll(EmptyDict, hot), neu[..j])
    {
      var p := neu[j];
      var pid := ToId(p);
      if Truthy(pid) {
        merged := Put(merged, pid, p);
      }
      assert neu[..j + 1][..j] == neu[..j];
      j := j + 1;
    }
    assert neu[..j] == neu;
  }

  /** The identities of the identified places, in list order, repeats included. */
  function Ids(ps: seq<Record>): (ids: seq<Json>)
    decreases |ps|
  {
    if ps == [] then []
    else
      var pre := Ids(ps[..|ps| - 1]);
      var p := ps[|ps| - 1];
      if HasId(p) then pre + [ToId(p)] else pre
  }

  /** Each value once, at its first occurrence. */
  function Dedup(s: seq<Json>): seq<Json>
    decreases |s|
  {
    if s == [] then []
    else
      var pre := Dedup(s[..|s| - 1]);
      if s[|s| - 1] in pre then pre else pre + [s[|s| - 1]]
  }

  /** The last place of the list with identity `k`. */
  function LastWithId(ps: seq<Record>, k: Json): (r: Option<Record>)
    ensures r.Some? ==> r.value in ps && HasId(r.value) && ToId(r.value) == k
    decreases |ps|
  {
    if ps == [] then None
    else
      var p := ps[|ps| - 1];
      if HasId(p) && ToId(p) == k then Some(p) else LastWithId(ps[..|ps| - 1], k)
  }

  lemma {:induction false} DedupMembers(s: seq<Json>)
    ensures forall x :: x in Dedup(s) <==> x in s
    decreases |s|
  {
    if s != [] {
      DedupMembers(s[..|s| - 1]);
      assert s == s[..|s| - 1] + [s[|s| - 1]];
    }
  }

  /** Writing a key keeps the keys and the insertion order in step. */
  lemma PutValid(d: PyDict, k: Json, v: Record)
    requires ValidDict(d)
    ensures ValidDict(Put(d, k, v))
  {
  }

  /**
   * Inserting a list into a dict built from `prefix` keeps it valid and
   * orders its keys by first insertion over `prefix` and the new identities.
   */
  lemma {:induction false} InsertAllOrder(d: PyDict, ps: seq<Record>, prefix: seq<Json>)
    requires ValidDict(d) && d.order == Dedup(prefix)
    ensures ValidDict(InsertAll(d, ps))
    ensures InsertAll(d, ps).order == Dedup(prefix + Ids(ps))
    decreases |ps|
  {
    if ps == [] {
      assert prefix + Ids(ps) == prefix;
    } else {
      var init := ps[..|ps| - 1];
      var p := ps[|ps| - 1];
      InsertAllOrder(d, init, prefix);
      DedupMembers(prefix + Ids(init));
      if HasId(p) {
        PutValid(InsertAll(d, init), ToId(p), p);
        assert prefix + Ids(ps) == (prefix + Ids(init)) + [ToId(p)];
        assert (prefix + Ids(ps))[..|prefix + Ids(ps)| - 1] == prefix + Ids(init);
      } else {
        assert prefix + Ids(ps) == prefix + Ids(init);
      }
    }
  }

  /** The keys after inserting a list: the old keys and the list's identities. */
  lemma {:induction false} InsertAllKeys(d: PyDict, ps: seq<Record>)
    ensures forall k :: k in InsertAll(d, ps).vals <==> k in d.vals || k in Ids(ps)
    decreases |ps|
  {
    if ps != [] {
      InsertAllKeys(d, ps[..|ps| - 1]);
    }
  }

  /** Each key holds the last place inserted under it, or else its old value. */
  lemma {:induction false} InsertAllValues(d: PyDict, ps: seq<Record>)
    ensures forall k :: k in InsertAll(d, ps).vals && LastWithId(ps, k).Some? ==>
      InsertAll(d, ps).vals[k] == LastWithId(ps, k).value
    ensures forall k :: k in InsertAll(d, ps).vals && LastWithId(ps, k).None? ==>
      k in d.vals && InsertAll(d, ps).vals[k] == d.vals[k]
    decreases |ps|
  {
    if ps != [] {
      InsertAllValues(d, ps[..|ps| - 1]);
    }
  }

  /** An identity of the list always has a last place. */
  lemma {:induction false} NoLastNoId(ps: seq<Record>, k: Json)
    requires LastWithId(ps, k).None?
    ensures k !in Ids(ps)
    decreases |ps|
  {
    if ps != [] {
      NoLastNoId(ps[..|ps| - 1], k);
    }
  }

  /**
   * The merge: its keys are the identities of both lists, ordered by first
   * insertion; each key holds its last place in `neu`, or else its last
   * place in `hot`.
   */
  lemma MergedShape(hot: seq<Record>, neu: seq<Record>)
    ensures ValidDict(Merged(hot, neu))
    ensures Merged(hot, neu).order == Dedup(Ids(hot) + Ids(neu))
    ensures forall k :: k in Merged(hot, neu).vals <==> k in Ids(hot) || k in Ids(neu)
    ensures forall k :: k in Merged(hot, neu).vals && LastWithId(neu, k).Some? ==>
      Merged(hot, neu).vals[k] == LastWithId(neu, k).value
    ensures forall k :: k in Merged(hot, neu).vals && LastWithId(neu, k).None? ==>
      LastWithId(hot, k).Some? && Merged(hot, neu).vals[k] == LastWithId(hot, k).value
  {
    var h := InsertAll(EmptyDict, hot);
    InsertAllOrder(EmptyDict, hot, []);
    assert [] + Ids(hot) == Ids(hot);
    InsertAllOrder(h, neu, Ids(hot));
    InsertAllKeys(EmptyDict, hot);
    InsertAllKeys(h, neu);
    InsertAllValues(EmptyDict, hot);
    InsertAllValues(h, neu);
    forall k | k in Merged(hot, neu).vals && LastWithId(neu, k).None?
      ensures LastWithId(hot, k).Some?
    {
      if LastWithId(hot, k).None? {
        NoLastNoId(hot, k);
        NoLastNoId(neu, k);
      }
    }
  }

  /** Deduplicating a longer list only appends. */
  lemma {:induction false} DedupPrefix(a: seq<Json>, b: seq<Json>)
    ensures |Dedup(a)| <= |Dedup(a + b)| && Dedup(a + b)[..|Dedup(a)|] == Dedup(a)
    decreases |b|
  {
    if b == [] {
      assert a + b == a;
    } else {
      var b' := b[..|b| - 1];
      DedupPrefix(a, b');
      assert (a + b)[..|a + b| - 1] == a + b';
    }
  }

  /** Every identity of `hot` precedes every identity seen only in `neu`. */
  lemma MergedHotFirst(hot: seq<Record>, neu: seq<Record>)
    ensures var o := Merged(hot, neu).order;
      forall p, q :: (0 <= p < |o| && 0 <= q < |o| && o[p] in Ids(hot) && o[q] !in Ids(hot)) ==> p < q
  {
    MergedShape(hot, neu);
    var o := Merged(hot, neu).order;
    DedupPrefix(Ids(hot), Ids(neu));
    DedupMembers(Ids(hot));
    var h := Dedup(Ids(hot));
    forall p, q | 0 <= p < |o| && 0 <= q < |o| && o[p] in Ids(hot) && o[q] !in Ids(hot)
      ensures p < q
    {
      assert q >= |h|;
      assert p < |h|;
    }
  }

  /** Every merged value has an identity, and it is the key it is stored under. */
  lemma MergedValuesIdentified(hot: seq<Record>, neu: seq<Record>)
    ensures var vs := Values(Merged(hot, neu));
      forall i :: 0 <= i < |vs| ==> HasId(vs[i]) && ToId(vs[i]) == Merged(hot, neu).order[i]
  {
    MergedShape(hot, neu);
  }

  // ---------------------------------------------------------------------------
  // Hidden-gem sets and the window
  // ---------------------------------------------------------------------------

  function Strings(xs: seq<string>): (js: seq<Json>)
    ensures |js| == |xs|
    ensures forall i :: 0 <= i < |xs| ==> js[i] == JStr(xs[i])
  {
    seq(|xs|, i requires 0 <= i < |xs| => JStr(xs[i]))
  }

  /** The id set of a list of strings is the set of those strings. */
  lemma IdSetStrings(xs: seq<string>)
    ensures forall v :: v in IdSet(Strings(xs)) <==> v.JStr? && v.s in xs
  {
    var js := Strings(xs);
    forall v | v in IdSet(js) ensures v.JStr? && v.s in xs {
      var x :| x in js && EntryId(x).Some? && EntryId(x).value == v;
      var i :| 0 <= i < |js| && js[i] == x;
    }
    forall v: Json | v.JStr? && v.s in xs ensures v in IdSet(js) {
      var i :| 0 <= i < |xs| && xs[i] == v.s;
      assert js[i] == v && js[i] in js;
      assert EntryId(js[i]) == Some(v);
    }
  }

  /** `low20_ids`: the union of both hidden-gem id sets. */
  function LowIds(snap: Snapshot): (s: set<Json>)
    ensures forall v :: v in s <==> v.JStr? && (v.s in snap.hotLow || v.s in snap.neuLow)
  {
    IdSetStrings(snap.hotLow);
    IdSetStrings(snap.neuLow);
    IdSet(Strings(snap.hotLow)) + IdSet(Strings(snap.neuLow))
  }

  /** `start = max(0, offset or 0)`. */
  function PageStart(offset: Option<int>): (start: nat)
    ensures offset.Some? && offset.value > 0 ==> start == offset.value
    ensures start == 0 <==> offset.None? || offset.value <= 0
  {
    if offset.None? || offset.value < 0 then 0 else offset.value
  }

  /** `k or 5`. */
  function PageSize(k: Option<int>): (size: int)
    ensures size != 0
    ensures k.Some? && k.value != 0 ==> size == k.value
    ensures k.None? || k.value == 0 ==> size == 5
  {
    if k.None? || k.value == 0 then 5 else k.value
  }

  /**
   * The page `scored[start:start + (k or 5)]`, with Python's slice rules: an
   * end beyond the list is clipped, and a negative end counts from the back.
   */
  function Window<T>(s: seq<T>, offset: Option<int>, k: Option<int>): (page: seq<T>)
    ensures |page| <= |s|
  {
    var (lo, hi) := WindowBounds(|s|, offset, k);
    if lo < hi then s[lo..hi] else []
  }

  /**
   * The clipped bounds `lo, hi` of `[start:end]` on a list of length `n`:
   * each bound is clipped to `[0, n]`, and a negative end counts from `n`.
   */
  function WindowBounds(n: nat, offset: Option<int>, k: Option<int>): (b: (nat, nat))
    ensures b.0 <= n && b.1 <= n
    ensures PageStart(offset) < n ==> b.0 == PageStart(offset)
    ensures PageStart(offset) + PageSize(k) >= 0 ==> b.1 == if PageStart(offset) + PageSize(k) < n then PageStart(offset) + PageSize(k) else n
  {
    var start := PageStart(offset);
    var end := start + PageSize(k);
    var lo := if start < n then start else n;
    var hi := if end < 0 then (if n + end < 0 then 0 else n + end)
              else if end < n then end else n;
    (lo, hi)
  }

  /**
   * For a page size of at least one, the page holds the `k` items from the
   * start (fewer at the end of the list), and an offset at or past the end
   * gives an empty page.
   */
  lemma WindowSlice<T>(s: seq<T>, offset: Option<int>, k: int)
    requires k >= 1
    ensures var start := PageStart(offset);
      && (start >= |s| ==> Window(s, offset, Some(k)) == [])
      && (start < |s| ==> Window(s, offset, Some(k)) == s[start..if start + k < |s| then start + k else |s|])
      && |Window(s, offset, Some(k))| == (if start >= |s| then 0 else if |s| - start < k then |s| - start else k)
  {
  }

  /** An absent or zero page size means five. */
  lemma WindowDefaultSize<T>(s: seq<T>, offset: Option<int>)
    ensures Window(s, offset, None) == Window(s, offset, Some(0)) == Window(s, offset, Some(5))
  {
  }

  /** The pages at `offset` and `offset + k` are adjacent slices of the same list. */
  lemma WindowAdjacent<T>(s: seq<T>, offset: nat, k: int)
    requires k >= 1
    ensures var hi := if offset + 2 * k < |s| then offset + 2 * k else |s|;
      Window(s, Some(offset), Some(k)) + Window(s, Some(offset + k), Some(k)) ==
        (if offset < |s| then s[offset..hi] else [])
  {
    WindowSlice(s, Some(offset), k);
    WindowSlice(s, Some(offset + k), k);
    if offset + k < |s| {
      var hi := if offset + 2 * k < |s| then offset + 2 * k else |s|;
      assert s[offset..offset + k] + s[offset + k..hi] == s[offset..hi];
    }
  }

  /** A page of a ranking is still sorted by score. */
  lemma WindowSorted(r: seq<Entry>, offset: Option<int>, k: Option<int>)
    requires SortedByScore(r)
    ensures SortedByScore(Window(r, offset, k))
  {
    var (lo, hi) := WindowBounds(|r|, offset, k);
    if lo < hi {
      SliceSorted(r, lo, hi);
    }
  }

  /** A page of records in score order is still in score order. */
  lemma WindowDescending(rs: seq<Record>, offset: Option<int>, k: Option<int>)
    requires ScoresDescending(rs)
    ensures ScoresDescending(Window(rs, offset, k))
  {
    var (lo, hi) := WindowBounds(|rs|, offset, k);
    if lo < hi {
      var w := rs[lo..hi];
      forall p, q | 0 <= p < q < |w| ensures FinalScore(w[p]) >= FinalScore(w[q]) {
        assert w[p] == rs[lo + p] && w[q] == rs[lo + q];
      }
    }
  }

  /** Every item of a page is an item of the list. */
  lemma WindowMembers<T>(s: seq<T>, offset: Option<int>, k: Option<int>)
    ensures forall x :: x in Window(s, offset, k) ==> x in s
  {
    var (lo, hi) := WindowBounds(|s|, offset, k);
    var w := Window(s, offset, k);
    forall x | x in w ensures x in s {
      var i :| 0 <= i < |w| && w[i] == x;
      assert w == s[lo..hi];
      assert w[i] == s[lo + i];
    }
  }

  /** The window commutes with taking the records of the entries. */
  lemma WindowRecords(r: seq<Entry>, offset: Option<int>, k: Option<int>)
    ensures Window(Records(r), offset, k) == Records(Window(r, offset, k))
  {
  }

  /**
   * A negative page size is not clamped: the end counts from the back, so
   * `k = -1` from the start of a list of three yields its first two items.
   */
  lemma WindowNegativeSize<T>(s: seq<T>, k: int)
    requires k < 0 && |s| + k > 0
    ensures Window(s, None, Some(k)) == s[..|s| + k]
  {
  }

  // ---------------------------------------------------------------------------
  // recommend_places and health_status
  // ---------------------------------------------------------------------------

  /** The request `recommend_places` hands to `score_places`. */
  function ServiceRequest(snap: Snapshot, category: Option<string>, keyword: Option<string>, seed: Seed): (r: Request)
    ensures forall v :: v in r.low20 <==> v.JStr? && (v.s in snap.hotLow || v.s in snap.neuLow)
    ensures r.low50 == {}
    ensures r.bias.Some? ==> r.bias.value == Neujoh || r.bias.value == Hotple
    ensures r.dist.Some? ==> keyword.Some? && keyword.value != ""
    ensures r.seed == seed
  {
    Request(LowIds(snap), {}, KeywordDistribution(keyword), DetectBias(category, keyword), seed)
  }

  /** The places `recommend_places` scores: the merged values, one per identity. */
  function MergedPlaces(snap: Snapshot): (ps: seq<Record>)
    ensures forall i :: 0 <= i < |ps| ==> HasId(ps[i])
    ensures forall i, j :: 0 <= i < j < |ps| ==> ToId(ps[i]) != ToId(ps[j])
  {
    MergedValuesIdentified(snap.hotAll, snap.neuAll);
    Values(Merged(snap.hotAll, snap.neuAll))
  }

  /** The two hidden-gem id sets of `recommend_places`, built by `_to_id_set`. */
  method HiddenIds(snap: Snapshot) returns (low20: set<Json>)
    ensures low20 == LowIds(snap)
  {
    var hotLow := ToIdSet(Strings(snap.hotLow));
    var neuLow := ToIdSet(Strings(snap.neuLow));
    low20 := hotLow + neuLow;
  }

  /**
   * `recommend_places`: merges, scores and sorts the snapshot's places, and
   * returns the requested window of the ranking.
   */
  method RecommendPlaces(
    snap: Snapshot, category: Option<string>, keyword: Option<string>,
    k: Option<int>, seed: Seed, offset: Option<int>)
    returns (page: seq<Record>, ghost ranking: seq<Entry>)
    ensures IsRanking(ranking, MergedPlaces(snap), ServiceRequest(snap, category, keyword, seed))
    ensures page == Records(Window(ranking, offset, k))
    ensures ScoresDescending(page)
    ensures |page| <= |MergedPlaces(snap)|
    ensures forall i :: 0 <= i < |page| ==> Get(page[i], "band_label") != JStr(BandLabel(Hidden50))
    ensures ValidSeed(seed) ==> forall i :: 0 <= i < |page| ==>
      0.0 <= FinalScore(page[i]) < 1.075 && (seed.Unseeded? ==> FinalScore(page[i]) <= 1.025)
  {
    var merged := MergeById(snap.hotAll, snap.neuAll);
    var places := Values(merged);
    var low20 := HiddenIds(snap);
    var bias := DetectBias(category, keyword);
    var scored;
    scored, ranking := ScorePlaces(places, low20, {}, keyword, seed, bias);
    page := Window(scored, offset, k);
    WindowRecords(ranking, offset, k);
    WindowDescending(scored, offset, k);
    WindowMembers(scored, offset, k);
    RecommendationContents(snap, category, keyword, seed, ranking);
    forall i | 0 <= i < |page|
      ensures ValidSeed(seed) ==>
        0.0 <= FinalScore(page[i]) < 1.075 && (seed.Unseeded? ==> FinalScore(page[i]) <= 1.025)
    {
      assert page[i] in scored;
    }
  }

  /**
   * What a recommendation contains: every merged place exactly once, never
   * in the 50% band, and in the 20% band exactly when its identity is a
   * string listed in either hidden-gem list.
   */
  lemma RecommendationContents(snap: Snapshot, category: Option<string>, keyword: Option<string>,
                               seed: Seed, r: seq<Entry>)
    requires IsRanking(r, MergedPlaces(snap), ServiceRequest(snap, category, keyword, seed))
    ensures |r| == |MergedPlaces(snap)|
    ensures forall k :: 0 <= k < |r| ==> Get(r[k].rec, "band_label") != JStr(BandLabel(Hidden50))
    ensures forall k :: 0 <= k < |r| ==>
      && r[k].pos < |MergedPlaces(snap)|
      && (Get(r[k].rec, "band_label") == JStr(BandLabel(Hidden20)) <==>
           var id := ToId(MergedPlaces(snap)[r[k].pos]);
           id.JStr? && (id.s in snap.hotLow || id.s in snap.neuLow))
  {
    var places := MergedPlaces(snap);
    var req := ServiceRequest(snap, category, keyword, seed);
    MergedValuesIdentified(snap.hotAll, snap.neuAll);
    RankingLength(r, places, req);
    RankingBands(r, places, req);
    BandLabelsDistinct();
    forall k | 0 <= k < |r|
      ensures Get(r[k].rec, "band_label") != JStr(BandLabel(Hidden50))
      ensures Get(r[k].rec, "band_label") == JStr(BandLabel(Hidden20)) <==> ToId(places[r[k].pos]) in LowIds(snap)
    {
      var b := BandOf(ToId(places[r[k].pos]), LowIds(snap), {});
      assert Get(r[k].rec, "band_label") == JStr(BandLabel(b));
      assert b != Hidden50;
    }
  }

  /** The response of `health_status`. */
  datatype Health = Health(
    dataLoaded: bool,
    hotpleCountAll: nat,
    neujohCountAll: nat,
    hotpleCountLow: nat,
    neujohCountLow: nat)

  /**
   * `health_status`: the snapshot dict always has its four keys, so
   * `data_loaded` is always true; the counts are the list lengths.
   */
  function HealthStatus(snap: Snapshot): (h: Health)
    ensures h.dataLoaded
    ensures h.hotpleCountAll == |snap.hotAll| && h.neujohCountAll == |snap.neuAll|
    ensures h.hotpleCountLow == |snap.hotLow| && h.neujohCountLow == |snap.neuLow|
  {
    Health(true, |snap.hotAll|, |snap.neuAll|, |snap.hotLow|, |snap.neuLow|)
  }

  /**
   * For a freshly loaded snapshot the place counts are the lengths of the
   * extracted lists, and the hidden-gem counts never exceed them.
   */
  lemma HealthOfLoaded(rawNeuAll: Json, rawHotAll: Json, rawNeuLow: Json, rawHotLow: Json)
    ensures var snap := Snapshot(PlacesFrom(rawNeuAll, Neujoh), PlacesFrom(rawHotAll, Hotple),
                                 IdsOf(ExtractList(rawNeuLow)), IdsOf(ExtractList(rawHotLow)));
      var h := HealthStatus(snap);
      && h.neujohCountAll == |ExtractList(rawNeuAll)|
      && h.hotpleCountAll == |ExtractList(rawHotAll)|
      && h.neujohCountLow <= |ExtractList(rawNeuLow)|
      && h.hotpleCountLow <= |ExtractList(rawHotLow)|
  {
  }
}
