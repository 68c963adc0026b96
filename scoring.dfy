/**
 * The scoring engine (`recommender/scoring.py`): identity resolution, the
 * hidden-gem band, the requested-bias and keyword bonuses, seeded jitter,
 * and the stable descending sort.
 *
 * `score_places` writes `band_label` and `final_score` into the caller's
 * dicts; here each scored place is a stamped copy of its record (see
 * `Stamp`), and the sorted result is returned.
 */
module Scoring {
  import opened Wrappers
  import opened Text
  import opened Json
  import opened Ranking

  const Neujoh := "느좋"
  const Hotple := "핫플"

  const WeightBand: real := 0.55
  const WeightKeyword: real := 0.25
  /** Reserved for distance weighting; never added to a score. */
  const WeightDistance: real := 0.10
  /** Reserved for diversity weighting; never added to a score. */
  const WeightDiversity: real := 0.05
  const WeightRandom: real := 0.05

  /** An ordered `{tag: fraction}` dict. */
  type Distribution = seq<(string, real)>

  /** `KEYWORD_TO_TAG_MAP`, in declaration order. */
  const KeywordToTagMap: seq<(string, Distribution)> := [
    ("친구", [(Neujoh, 0.4), (Hotple, 0.6)]),
    ("연인", [(Neujoh, 0.6), (Hotple, 0.4)]),
    ("데이트", [(Hotple, 1.0)]),
    ("카페", [(Hotple, 1.0)]),
    ("맛집", [(Hotple, 1.0)]),
    ("가족", [(Neujoh, 1.0)]),
    ("조용한", [(Neujoh, 1.0)]),
    ("둘레길", [(Neujoh, 1.0)]),
    ("공원", [(Neujoh, 1.0)]),
    ("자연", [(Neujoh, 1.0)]),
    ("정원", [(Neujoh, 1.0)]),
    ("야경", [(Neujoh, 1.0)])
  ]

  /** The keys of `KeywordToTagMap`, in declaration order. */
  function KeywordKeys(): (keys: seq<string>)
    ensures |keys| == |KeywordToTagMap|
    ensures forall i :: 0 <= i < |keys| ==> keys[i] == KeywordToTagMap[i].0
  {
    seq(|KeywordToTagMap|, i requires 0 <= i < |KeywordToTagMap| => KeywordToTagMap[i].0)
  }

  /** The identity fields, in priority order. */
  const IdFields: seq<string> := ["id", "placeId", "place_id", "name"]

  // ---------------------------------------------------------------------------
  // Identity
  // ---------------------------------------------------------------------------

  /**
   * `_to_id`: the first truthy value among `id`, `placeId`, `place_id`,
   * `name`; a falsy result means the place has no identity.
   */
  function ToId(place: Record): (id: Json)
    ensures Truthy(id) <==>
      Truthy(Get(place, "id")) || Truthy(Get(place, "placeId")) ||
      Truthy(Get(place, "place_id")) || Truthy(Get(place, "name"))
    ensures Truthy(Get(place, "id")) ==> id == Get(place, "id")
    ensures !Truthy(Get(place, "id")) && Truthy(Get(place, "placeId")) ==>
      id == Get(place, "placeId")
    ensures (!Truthy(Get(place, "id")) && !Truthy(Get(place, "placeId")) &&
             Truthy(Get(place, "place_id"))) ==> id == Get(place, "place_id")
    ensures (!Truthy(Get(place, "id")) && !Truthy(Get(place, "placeId")) &&
             !Truthy(Get(place, "place_id")) && Truthy(Get(place, "name"))) ==> id == Get(place, "name")
  {
    var id := FirstTruthy(place, IdFields);
    assert IdFields[0] == "id" && IdFields[1] == "placeId";
    assert IdFields[2] == "place_id" && IdFields[3] == "name";
    id
  }

  predicate HasId(place: Record) {
    Truthy(ToId(place))
  }

  /** What one entry of a hidden-gem list contributes to its id set. */
  function EntryId(x: Json): (r: Option<Json>)
    ensures r.Some? <==> x.JStr? || (x.JObj? && HasId(x.fields))
    ensures x.JStr? ==> r == Some(x)
    ensures r.Some? && !x.JStr? ==> Truthy(r.value) && r.value == ToId(x.fields)
  {
    match x
    case JStr(_) => Some(x)
    case JObj(m) => if HasId(m) then Some(ToId(m)) else None
    case _ => None
  }

  /** The id set of a hidden-gem list. */
  function IdSet(xs: seq<Json>): (s: set<Json>)
    ensures forall x :: x in xs && x.JStr? ==> x in s
    ensures forall x :: x in xs && x.JObj? && HasId(x.fields) ==> ToId(x.fields) in s
    ensures forall v :: v in s ==> v.JStr? || Truthy(v)
  {
    set x | x in xs && EntryId(x).Some? :: EntryId(x).value
  }

  lemma IdSetSnoc(xs: seq<Json>, x: Json)
    ensures IdSet(xs + [x]) == IdSet(xs) + (if EntryId(x).Some? then {EntryId(x).value} else {})
  {
    var extra := if EntryId(x).Some? then {EntryId(x).value} else {};
    forall v | v in IdSet(xs + [x]) ensures v in IdSet(xs) + extra {
      var y :| y in xs + [x] && EntryId(y).Some? && EntryId(y).value == v;
      if y != x { assert y in xs; }
    }
    forall v | v in IdSet(xs) + extra ensures v in IdSet(xs + [x]) {
      if v in IdSet(xs) {
        var y :| y in xs && EntryId(y).Some? && EntryId(y).value == v;
        assert y in xs + [x];
      } else {
        assert x in xs + [x];
      }
    }
  }

  /**
   * `_to_id_set`: strings are kept as they are, dicts contribute their
   * identity when they have one, and every other entry is ignored.
   */
  method ToIdSet(xs: seq<Json>) returns (s: set<Json>)
    ensures s == IdSet(xs)
    ensures forall x :: x in xs && x.JStr? ==> x in s
    ensures forall x :: x in xs && x.JObj? && HasId(x.fields) ==> ToId(x.fields) in s
    ensures forall v :: v in s ==> exists x :: x in xs && EntryId(x) == Some(v)
  {
    s := {};
    var i := 0;
    while i < |xs|
      invariant 0 <= i <= |xs|
      invariant s == IdSet(xs[..i])
    {
      var x := xs[i];
      if x.JStr? {
        s := s + {x};
      } else if x.JObj? {
        var pid := ToId(x.fields);
        if Truthy(pid) {
          s := s + {pid};
        }
      }
      assert xs[..i + 1] == xs[..i] + [x];
      IdSetSnoc(xs[..i], x);
      i := i + 1;
    }
    assert xs[..i] == xs;
  }

  // ---------------------------------------------------------------------------
  // The terms of a score
  // ---------------------------------------------------------------------------

  datatype Band = Hidden20 | Hidden50 | Normal

  /** The band of an identity: the 20% tier takes precedence over the 50% tier. */
  function BandOf(id: Json, low20: set<Json>, low50: set<Json>): (b: Band)
    ensures b == Hidden20 <==> id in low20
    ensures b == Hidden50 <==> id !in low20 && id in low50
    ensures b == Normal <==> id !in low20 && id !in low50
  {
    if id in low20 then Hidden20 else if id in low50 then Hidden50 else Normal
  }

  /** The `band_label` written for a band; only the hidden-gem labels start with 숨은. */
  function BandLabel(b: Band): (l: string)
    ensures (|l| >= 2 && l[..2] == "숨은") <==> b != Normal
  {
    match b
    case Hidden20 => "숨은(20%)"
    case Hidden50 => "숨은(50%)"
    case Normal =>
      assert "일반"[..2][0] != "숨은"[0];
      "일반"
  }

  /** The three labels are different strings, so a label names its band. */
  lemma BandLabelsDistinct()
    ensures BandLabel(Hidden20) != BandLabel(Hidden50)
    ensures BandLabel(Hidden20) != BandLabel(Normal) && BandLabel(Hidden50) != BandLabel(Normal)
    ensures forall b, c :: BandLabel(b) == BandLabel(c) ==> b == c
  {
    assert BandLabel(Hidden20)[3] != BandLabel(Hidden50)[3];
    assert BandLabel(Hidden20)[0] != BandLabel(Normal)[0];
    assert BandLabel(Hidden50)[0] != BandLabel(Normal)[0];
  }

  /** The band term of the score: the full band weight for 20%, half of it for 50%, nothing otherwise. */
  function BandBonus(b: Band): (r: real)
    ensures 0.0 <= r <= WeightBand
    ensures r == WeightBand <==> b == Hidden20
    ensures r == 0.0 <==> b == Normal
  {
    match b
    case Hidden20 => WeightBand
    case Hidden50 => WeightBand * 0.5
    case Normal => 0.0
  }

  /**
   * Python's `t in tags` for the values a `tags` field can hold: list
   * membership, substring of a string, key of a dict. Any other value makes
   * Python raise; it is taken to contain nothing.
   */
  predicate HasTag(tags: Json, t: string)
    ensures HasTag(tags, t) ==> tags.JList? || tags.JStr? || tags.JObj?
    ensures tags == JList([]) ==> !HasTag(tags, t)
  {
    match tags
    case JList(xs) => JStr(t) in xs
    case JStr(s) => Contains(s, t)
    case JObj(m) => t in m
    case _ => false
  }

  /** `place.get("tags", [])`. */
  function TagsOf(place: Record): (tags: Json)
    ensures "tags" in place ==> tags == place["tags"]
    ensures "tags" !in place ==> forall t :: !HasTag(tags, t)
  {
    if "tags" in place then place["tags"] else JList([])
  }

  /** `W_kw * 0.9` exactly when the requested bias is a source name the place is tagged with. */
  function BiasBonus(bias: Option<string>, tags: Json): (b: real)
    ensures b == 0.0 || b == WeightKeyword * 0.9
    ensures b != 0.0 <==> bias.Some? && (bias.value == Neujoh || bias.value == Hotple) && HasTag(tags, bias.value)
  {
    if bias.Some? && (bias.value == Neujoh || bias.value == Hotple) && HasTag(tags, bias.value)
    then WeightKeyword * 0.9
    else 0.0
  }

  /** The sum of `W_kw * frac` over the distribution's tags that the place carries. */
  function KeywordBonus(d: Distribution, tags: Json): (b: real)
    ensures (forall k :: 0 <= k < |d| ==> !HasTag(tags, d[k].0)) ==> b == 0.0
    ensures (forall k :: 0 <= k < |d| ==> HasTag(tags, d[k].0)) ==> b == WeightKeyword * FracSum(d)
    decreases |d|
  {
    if d == [] then 0.0
    else
      var last := d[|d| - 1];
      KeywordBonus(d[..|d| - 1], tags) + (if HasTag(tags, last.0) then WeightKeyword * last.1 else 0.0)
  }

  function FracSum(d: Distribution): real
    decreases |d|
  {
    if d == [] then 0.0 else FracSum(d[..|d| - 1]) + d[|d| - 1].1
  }

  /** Fractions are non-negative independent bonuses adding up to at most 1. */
  predicate ValidDistribution(d: Distribution) {
    (forall k :: 0 <= k < |d| ==> d[k].1 >= 0.0) && FracSum(d) <= 1.0
  }

  /**
   * The random source: `None` for an absent seed, else the successive draws
   * of `random.Random(str(seed))`.
   */
  datatype Seed = Unseeded | Seeded(draw: nat -> real)

  ghost predicate ValidSeed(seed: Seed) {
    seed.Seeded? ==> forall n: nat :: 0.0 <= seed.draw(n) < 1.0
  }

  /** The jitter of the `n`-th identified place. */
  function Jitter(seed: Seed, n: nat): (j: real)
    ensures seed.Unseeded? ==> j == 0.0
    ensures seed.Seeded? && 0.0 <= seed.draw(n) < 1.0 ==> 0.0 <= j < WeightRandom
  {
    match seed
    case Unseeded => 0.0
    case Seeded(draw) => draw(n) * WeightRandom
  }

  /** Everything a call of `score_places` holds fixed across the places. */
  datatype Request = Request(
    low20: set<Json>,
    low50: set<Json>,
    dist: Option<Distribution>,
    bias: Option<string>,
    seed: Seed)

  /** The accumulated score of an identified place that is the `n`-th to be scored. */
  function PlaceScore(place: Record, req: Request, n: nat): (s: real)
    ensures (req.dist.Some? ==> forall k :: 0 <= k < |req.dist.value| ==> req.dist.value[k].1 >= 0.0) &&
            (req.seed.Seeded? ==> req.seed.draw(n) >= 0.0) ==>
      s >= BandBonus(BandOf(ToId(place), req.low20, req.low50))
  {
    var tags := TagsOf(place);
    BandBonus(BandOf(ToId(place), req.low20, req.low50))
    + BiasBonus(req.bias, tags)
    + (if req.dist.Some? then KeywordBonusBounds(req.dist.value, tags); KeywordBonus(req.dist.value, tags) else 0.0)
    + Jitter(req.seed, n)
  }

  /** The record with `band_label` and `final_score` written into it. */
  function Stamp(place: Record, b: Band, score: real): (r: Record)
    ensures r.Keys == place.Keys + {"band_label", "final_score"}
    ensures r["band_label"] == JStr(BandLabel(b)) && r["final_score"] == JFloat(score)
    ensures forall k :: k in place && k != "band_label" && k != "final_score" ==> r[k] == place[k]
  {
    place["band_label" := JStr(BandLabel(b))]["final_score" := JFloat(score)]
  }

  function ScoreEntry(place: Record, pos: nat, req: Request, n: nat): Entry {
    var score := PlaceScore(place, req, n);
    Entry(pos, Stamp(place, BandOf(ToId(place), req.low20, req.low50), score), score)
  }

  /** The identified places, in input order, before sorting; at most one entry per place. */
  function ScoreAll(places: seq<Record>, req: Request): (es: seq<Entry>)
    ensures |es| <= |places|
    decreases |places|
  {
    if places == [] then []
    else
      var pre := ScoreAll(places[..|places| - 1], req);
      var last := places[|places| - 1];
      if HasId(last) then pre + [ScoreEntry(last, |places| - 1, req, |pre|)] else pre
  }

  /** A possible outcome of `score_places`: the scored places, stably sorted. */
  ghost predicate IsRanking(r: seq<Entry>, places: seq<Record>, req: Request)
    ensures IsRanking(r, places, req) ==> |r| == |ScoreAll(places, req)|
  {
    var es := ScoreAll(places, req);
    assert multiset(r) == multiset(es) ==> |r| == |multiset(r)| == |multiset(es)| == |es|;
    multiset(r) == multiset(es) && SortedByScore(r)
  }

  /** The `final_score` written into a record. */
  function FinalScore(r: Record): real {
    if Get(r, "final_score").JFloat? then Get(r, "final_score").f else 0.0
  }

  /** Records in non-increasing order of their `final_score`. */
  predicate ScoresDescending(rs: seq<Record>) {
    forall p, q :: 0 <= p < q < |rs| ==> FinalScore(rs[p]) >= FinalScore(rs[q])
  }

  /**
   * The distribution of the first map key, in declaration order, that occurs
   * in the keyword; none for an absent or empty keyword.
   */
  function KeywordDistribution(keyword: Option<string>): (d: Option<Distribution>)
    ensures d.Some? ==> keyword.Some?
    ensures d.Some? ==>
      exists i :: 0 <= i < |KeywordToTagMap| && d.value == KeywordToTagMap[i].1 &&
        Contains(keyword.value, KeywordToTagMap[i].0) &&
        forall j :: 0 <= j < i ==> !Contains(keyword.value, KeywordToTagMap[j].0)
    ensures d.None? && keyword.Some? && keyword.value != "" ==>
      forall i :: 0 <= i < |KeywordToTagMap| ==> !Contains(keyword.value, KeywordToTagMap[i].0)
  {
    if keyword.None? || keyword.value == "" then None
    else
      match FirstContained(KeywordKeys(), keyword.value)
      case None => None
      case Some(i) => Some(KeywordToTagMap[i].1)
  }

  // ---------------------------------------------------------------------------
  // score_places
  // ---------------------------------------------------------------------------

  /** The keyword search of `score_places`: `for kw, mapping in ...: if kw in keyword: break`. */
  method MatchKeyword(keyword: Option<string>) returns (dist: Option<Distribution>)
    ensures dist == KeywordDistribution(keyword)
  {
    dist := None;
    if keyword.Some? && keyword.value != "" {
      var text := keyword.value;
      var i := 0;
      while i < |KeywordToTagMap|
        invariant 0 <= i <= |KeywordToTagMap|
        invariant forall j :: 0 <= j < i ==> !Contains(text, KeywordKeys()[j])
      {
        var (kw, mapping) := KeywordToTagMap[i];
        if Contains(text, kw) {
          dist := Some(mapping);
          return;
        }
        i := i + 1;
      }
    }
  }

  /** The body of the scoring loop for one identified place, accumulating its score. */
  method ScoreOne(place: Record, pos: nat, req: Request, n: nat) returns (e: Entry)
    ensures e == ScoreEntry(place, pos, req, n)
  {
    var id := ToId(place);
    var score := 0.0;
    var band;
    if id in req.low20 {
      score := score + WeightBand;
      band := Hidden20;
    } else if id in req.low50 {
      score := score + WeightBand * 0.5;
      band := Hidden50;
    } else {
      band := Normal;
    }
    var tags := TagsOf(place);
    if req.bias.Some? && (req.bias.value == Neujoh || req.bias.value == Hotple) && HasTag(tags, req.bias.value) {
      score := score + WeightKeyword * 0.9;
    }
    ghost var beforeKeyword := score;
    assert band == BandOf(id, req.low20, req.low50);
    assert beforeKeyword == BandBonus(band) + BiasBonus(req.bias, tags);
    if req.dist.Some? {
      var d := req.dist.value;
      var j := 0;
      while j < |d|
        invariant 0 <= j <= |d|
        invariant score == beforeKeyword + KeywordBonus(d[..j], tags)
      {
        var (tag, frac) := d[j];
        if HasTag(tags, tag) {
          score := score + WeightKeyword * frac;
        }
        assert d[..j + 1][..j] == d[..j];
        j := j + 1;
      }
      assert d[..j] == d;
    }
    if req.seed.Seeded? {
      score := score + req.seed.draw(n) * WeightRandom;
    }
    assert score == PlaceScore(place, req, n);
    e := Entry(pos, Stamp(place, band, score), score);
  }

  /**
   * The scoring loop of `score_places`: places without an identity are
   * skipped, the others are scored in input order, each with the next draw.
   */
  method ScoreEach(places: seq<Record>, req: Request) returns (entries: seq<Entry>)
    ensures entries == ScoreAll(places, req)
    ensures IncreasingPos(entries)
  {
    entries := [];
    var i := 0;
    while i < |places|
      invariant 0 <= i <= |places|
      invariant entries == ScoreAll(places[..i], req)
    {
      var place := places[i];
      ghost var next := places[..i + 1];
      assert next[..i] == places[..i] && next[i] == place;
      assert ScoreAll(next, req) ==
        if HasId(place) then entries + [ScoreEntry(place, i, req, |entries|)] else entries;
      if HasId(place) {
        var e := ScoreOne(place, i, req, |entries|);
        entries := entries + [e];
      }
      i := i + 1;
    }
    assert places[..i] == places;
    ScoreAllIncreasing(places, req);
  }

  /**
   * `score_places`: every place with an identity, stamped with its band and
   * score, sorted by score descending with ties in input order.
   */
  method ScorePlaces(
    places: seq<Record>, low20: set<Json>, low50: set<Json>,
    keyword: Option<string>, seed: Seed, bias: Option<string>)
    returns (scored: seq<Record>, ghost ranking: seq<Entry>)
    ensures IsRanking(ranking, places, Request(low20, low50, KeywordDistribution(keyword), bias, seed))
    ensures scored == Records(ranking)
    ensures ScoresDescending(scored)
    ensures |scored| <= |places|
    ensures ValidSeed(seed) ==> forall k :: 0 <= k < |scored| ==>
      0.0 <= FinalScore(scored[k]) < 1.075 && (seed.Unseeded? ==> FinalScore(scored[k]) <= 1.025)
  {
    var dist := MatchKeyword(keyword);
    var req := Request(low20, low50, dist, bias, seed);
    var entries := ScoreEach(places, req);
    var a := new Entry[|entries|](k requires 0 <= k < |entries| => entries[k]);
    assert a[..] == entries;
    SortByScore(a);
    var sorted := a[..];
    ranking := sorted;
    scored := Records(sorted);
    RankingRecordsDescending(ranking, places, req);
    if ValidSeed(seed) {
      KeywordDistributionValid(keyword);
      RankingScoreBounds(ranking, places, req);
    }
  }

  // ---------------------------------------------------------------------------
  // Properties
  // ---------------------------------------------------------------------------

  /**
   * Before sorting, the `k`-th entry is the `k`-th identified place, scored
   * with the `k`-th draw.
   */
  lemma {:induction false} ScoreAllEntries(places: seq<Record>, req: Request)
    ensures forall k :: 0 <= k < |ScoreAll(places, req)| ==>
      var e := ScoreAll(places, req)[k];
      e.pos < |places| && HasId(places[e.pos]) && e == ScoreEntry(places[e.pos], e.pos, req, k)
    decreases |places|
  {
    if places != [] {
      var n := |places| - 1;
      var init := places[..n];
      ScoreAllEntries(init, req);
      var pre := ScoreAll(init, req);
      var es := ScoreAll(places, req);
      assert es[..|pre|] == pre;
      forall k | 0 <= k < |pre|
        ensures es[k].pos < |places| && HasId(places[es[k].pos])
        ensures es[k] == ScoreEntry(places[es[k].pos], es[k].pos, req, k)
      {
        assert es[k] == es[..|pre|][k] == pre[k];
        assert places[pre[k].pos] == init[pre[k].pos];
      }
    }
  }

  /** Before sorting, the entries are in input order. */
  lemma {:induction false} ScoreAllIncreasing(places: seq<Record>, req: Request)
    ensures IncreasingPos(ScoreAll(places, req))
    decreases |places|
  {
    if places != [] {
      var n := |places| - 1;
      var init := places[..n];
      ScoreAllIncreasing(init, req);
      ScoreAllEntries(init, req);
      var pre := ScoreAll(init, req);
      if HasId(places[n]) {
        var es := pre + [ScoreEntry(places[n], n, req, |pre|)];
        assert es == ScoreAll(places, req);
        forall p, q | 0 <= p < q < |es| ensures es[p].pos < es[q].pos {
          if q == |pre| {
            assert es[p] == pre[p] && pre[p].pos < |init|;
          } else {
            assert es[p] == pre[p] && es[q] == pre[q];
          }
        }
      }
    }
  }

  /** The place at input position `i` has an entry in `es`. */
  predicate Scored(es: seq<Entry>, i: nat) {
    exists k :: 0 <= k < |es| && es[k].pos == i
  }

  /** Every identified place is scored. */
  lemma {:induction false} ScoreAllComplete(places: seq<Record>, req: Request)
    ensures forall i :: 0 <= i < |places| && HasId(places[i]) ==> Scored(ScoreAll(places, req), i)
    decreases |places|
  {
    if places != [] {
      var n := |places| - 1;
      var init := places[..n];
      ScoreAllComplete(init, req);
      var pre := ScoreAll(init, req);
      var es := ScoreAll(places, req);
      forall i | 0 <= i < |places| && HasId(places[i])
        ensures Scored(es, i)
      {
        if i == n {
          assert es == pre + [ScoreEntry(places[n], n, req, |pre|)];
          assert es[|pre|].pos == i;
        } else {
          assert init[i] == places[i];
          assert Scored(pre, i);
          var k :| 0 <= k < |pre| && pre[k].pos == i;
          assert es[k] == pre[k];
        }
      }
    }
  }

  /** Every entry of a ranking is one of the scored entries, and conversely. */
  lemma RankingMembers(r: seq<Entry>, places: seq<Record>, req: Request)
    requires IsRanking(r, places, req)
    ensures forall k :: 0 <= k < |r| ==> r[k] in ScoreAll(places, req)
    ensures forall e :: e in ScoreAll(places, req) ==> e in r
  {
    var es := ScoreAll(places, req);
    forall k | 0 <= k < |r| ensures r[k] in es {
      assert r[k] in multiset(r);
    }
    forall e | e in es ensures e in r {
      assert e in multiset(es);
    }
  }

  /**
   * The ranking holds exactly the places that have an identity, each once,
   * stamped with the band its identity earns and with its own score;
   * places without an identity never appear.
   */
  lemma RankingContents(r: seq<Entry>, places: seq<Record>, req: Request)
    requires IsRanking(r, places, req)
    ensures DistinctPos(r)
    ensures forall k :: 0 <= k < |r| ==>
      && r[k].pos < |places|
      && HasId(places[r[k].pos])
      && r[k].rec == Stamp(places[r[k].pos], BandOf(ToId(places[r[k].pos]), req.low20, req.low50), r[k].score)
    ensures forall i :: 0 <= i < |places| ==>
      (HasId(places[i]) <==> exists k :: 0 <= k < |r| && r[k].pos == i)
  {
    var es := ScoreAll(places, req);
    ScoreAllEntries(places, req);
    ScoreAllIncreasing(places, req);
    ScoreAllComplete(places, req);
    RankingMembers(r, places, req);
    PermutationKeepsDistinct(es, r);
    forall i | 0 <= i < |places| && HasId(places[i])
      ensures exists k :: 0 <= k < |r| && r[k].pos == i
    {
      assert Scored(es, i);
      var k :| 0 <= k < |es| && es[k].pos == i;
      assert es[k] in r;
      var m :| 0 <= m < |r| && r[m] == es[k];
    }
  }

  /** Each ranked record carries the label of the band its identity earns. */
  lemma RankingBands(r: seq<Entry>, places: seq<Record>, req: Request)
    requires IsRanking(r, places, req)
    ensures forall k :: 0 <= k < |r| ==>
      && r[k].pos < |places|
      && Get(r[k].rec, "band_label") == JStr(BandLabel(BandOf(ToId(places[r[k].pos]), req.low20, req.low50)))
      && Get(r[k].rec, "final_score") == JFloat(r[k].score)
  {
    RankingContents(r, places, req);
  }

  /** The records of a ranking are in non-increasing order of their written score. */
  lemma RankingRecordsDescending(r: seq<Entry>, places: seq<Record>, req: Request)
    requires IsRanking(r, places, req)
    ensures ScoresDescending(Records(r))
    ensures |r| == |ScoreAll(places, req)|
  {
    RankingBands(r, places, req);
    var rs := Records(r);
    forall p, q | 0 <= p < q < |rs| ensures FinalScore(rs[p]) >= FinalScore(rs[q]) {
      assert FinalScore(rs[p]) == r[p].score && FinalScore(rs[q]) == r[q].score;
      assert Precedes(r[p], r[q]);
    }
    assert |r| == |multiset(r)| == |multiset(ScoreAll(places, req))|;
  }

  /** When every place has an identity, every place is scored. */
  lemma {:induction false} AllIdentifiedScored(places: seq<Record>, req: Request)
    requires forall i :: 0 <= i < |places| ==> HasId(places[i])
    ensures |ScoreAll(places, req)| == |places|
    decreases |places|
  {
    if places != [] {
      AllIdentifiedScored(places[..|places| - 1], req);
    }
  }

  /** When every place has an identity, the ranking holds them all. */
  lemma RankingLength(r: seq<Entry>, places: seq<Record>, req: Request)
    requires IsRanking(r, places, req)
    requires forall i :: 0 <= i < |places| ==> HasId(places[i])
    ensures |r| == |places|
  {
    AllIdentifiedScored(places, req);
    assert |r| == |multiset(r)| == |multiset(ScoreAll(places, req))|;
  }

  /** A ranking is determined by its inputs: a fixed seed reproduces the same order and scores. */
  lemma RankingUnique(r1: seq<Entry>, r2: seq<Entry>, places: seq<Record>, req: Request)
    requires IsRanking(r1, places, req) && IsRanking(r2, places, req)
    ensures r1 == r2
  {
    RankingContents(r1, places, req);
    SortedUnique(r1, r2);
  }

  lemma {:induction false} KeywordBonusBounds(d: Distribution, tags: Json)
    ensures (forall k :: 0 <= k < |d| ==> d[k].1 >= 0.0) ==>
      0.0 <= KeywordBonus(d, tags) <= WeightKeyword * FracSum(d)
    decreases |d|
  {
    if d != [] {
      KeywordBonusBounds(d[..|d| - 1], tags);
    }
  }

  /** Every distribution of the keyword map is valid. */
  lemma KeywordMapValid()
    ensures forall i :: 0 <= i < |KeywordToTagMap| ==> ValidDistribution(KeywordToTagMap[i].1)
  {
    var pair: Distribution := [(Neujoh, 0.4), (Hotple, 0.6)];
    var pair': Distribution := [(Neujoh, 0.6), (Hotple, 0.4)];
    assert FracSum(pair) == 1.0 by {
      assert pair[..1] == [(Neujoh, 0.4)];
      assert FracSum([(Neujoh, 0.4)]) == 0.4 by {
        assert [(Neujoh, 0.4)][..0] == [];
      }
    }
    assert FracSum(pair') == 1.0 by {
      assert pair'[..1] == [(Neujoh, 0.6)];
      assert FracSum([(Neujoh, 0.6)]) == 0.6 by {
        assert [(Neujoh, 0.6)][..0] == [];
      }
    }
    assert FracSum([(Hotple, 1.0)]) == 1.0;
    assert FracSum([(Neujoh, 1.0)]) == 1.0;
  }

  /**
   * Score bounds: band, bias and keyword terms add up to at most 1.025; the
   * jitter is exactly 0 without a seed and below 0.05 with one.
   */
  lemma ScoreBounds(place: Record, req: Request, n: nat)
    requires req.dist.Some? ==> ValidDistribution(req.dist.value)
    requires ValidSeed(req.seed)
    ensures req.seed.Unseeded? ==> Jitter(req.seed, n) == 0.0
    ensures 0.0 <= PlaceScore(place, req, n)
    ensures req.seed.Unseeded? ==> PlaceScore(place, req, n) <= 1.025
    ensures PlaceScore(place, req, n) < 1.075
  {
    if req.dist.Some? {
      KeywordBonusBounds(req.dist.value, TagsOf(place));
    }
  }

  /**
   * The bounds of `ScoreBounds` hold of every `final_score` a ranking carries:
   * at least 0, below 1.075, and at most 1.025 without a seed.
   */
  lemma RankingScoreBounds(r: seq<Entry>, places: seq<Record>, req: Request)
    requires IsRanking(r, places, req)
    requires req.dist.Some? ==> ValidDistribution(req.dist.value)
    requires ValidSeed(req.seed)
    ensures forall k :: 0 <= k < |r| ==>
      0.0 <= FinalScore(Records(r)[k]) < 1.075 && (req.seed.Unseeded? ==> FinalScore(Records(r)[k]) <= 1.025)
  {
    var es := ScoreAll(places, req);
    var rs := Records(r);
    RankingBands(r, places, req);
    RankingMembers(r, places, req);
    ScoreAllEntries(places, req);
    forall k | 0 <= k < |r|
      ensures 0.0 <= FinalScore(rs[k]) < 1.075 && (req.seed.Unseeded? ==> FinalScore(rs[k]) <= 1.025)
    {
      assert FinalScore(rs[k]) == r[k].score;
      var j :| 0 <= j < |es| && es[j] == r[k];
      var p := places[es[j].pos];
      assert r[k].score == PlaceScore(p, req, j);
      ScoreBounds(p, req, j);
    }
  }

  /** No keyword distribution leaves a score outside the bounds. */
  lemma KeywordDistributionValid(keyword: Option<string>)
    ensures KeywordDistribution(keyword).Some? ==> ValidDistribution(KeywordDistribution(keyword).value)
  {
    KeywordMapValid();
  }
}
