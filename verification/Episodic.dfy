/** Episodic segmentation: records in time order are cut into episodes at
    boundaries and at a maximum size. Reals stand for floats and `log` is a
    parameter. */
module Episodic {
  import opened Prelude

  datatype Record = Record(id: string, createdAt: real, namespace: string, tags: seq<string>)

  datatype Config = Config(temporalGap: real, tagOverlap: real, surprise: real, maxSize: int)

  // ---- sorting by time

  function Insert(s: seq<Record>, r: Record): seq<Record> {
    if |s| == 0 then [r]
    else if s[|s| - 1].createdAt <= r.createdAt then s + [r]
    else Insert(s[..|s| - 1], r) + [s[|s| - 1]]
  }

  function ByTime(s: seq<Record>): seq<Record> {
    if |s| == 0 then [] else Insert(ByTime(s[..|s| - 1]), s[|s| - 1])
  }

  ghost predicate InOrder(s: seq<Record>) {
    forall i, j :: 0 <= i < j < |s| ==> s[i].createdAt <= s[j].createdAt
  }

  ghost function At(s: seq<Record>, time: real): seq<Record> {
    if |s| == 0 then []
    else At(s[..|s| - 1], time) + if s[|s| - 1].createdAt == time then [s[|s| - 1]] else []
  }

  lemma {:induction false} InsertAddsOne(s: seq<Record>, r: Record)
    ensures multiset(Insert(s, r)) == multiset(s) + multiset{r}
  {
    if |s| > 0 {
      assert s == s[..|s| - 1] + [s[|s| - 1]];
      if s[|s| - 1].createdAt > r.createdAt {
        InsertAddsOne(s[..|s| - 1], r);
      }
    }
  }

  lemma {:induction false} InsertKeepsOrder(s: seq<Record>, r: Record)
    requires InOrder(s)
    ensures InOrder(Insert(s, r))
  {
    if |s| > 0 {
      var init, last := s[..|s| - 1], s[|s| - 1];
      if last.createdAt > r.createdAt {
        InsertKeepsOrder(init, r);
        InsertAddsOne(init, r);
        forall x | x in Insert(init, r) ensures x.createdAt <= last.createdAt {
          assert x in multiset(Insert(init, r));
          assert x in multiset(init) || x == r;
        }
      }
    }
  }

  lemma {:induction false} AtAppend(s: seq<Record>, x: Record, time: real)
    ensures At(s + [x], time) == At(s, time) + if x.createdAt == time then [x] else []
  {
    assert (s + [x])[..|s|] == s;
  }

  lemma {:induction false} InsertIsLast(s: seq<Record>, r: Record, time: real)
    ensures At(Insert(s, r), time) == At(s, time) + if r.createdAt == time then [r] else []
  {
    if |s| == 0 {
      AtAppend([], r, time);
    } else if s[|s| - 1].createdAt <= r.createdAt {
      AtAppend(s, r, time);
    } else {
      InsertIsLast(s[..|s| - 1], r, time);
      AtAppend(Insert(s[..|s| - 1], r), s[|s| - 1], time);
    }
  }

  lemma SplitLast(s: seq<Record>)
    requires |s| > 0
    ensures multiset(s) == multiset(s[..|s| - 1]) + multiset{s[|s| - 1]}
  {
    assert s == s[..|s| - 1] + [s[|s| - 1]];
  }

  lemma NothingInOrder()
    ensures InOrder([])
  {
  }

  /** `ByTime` is a sort: in order, nothing lost or added. */
  lemma {:induction false} ByTimeSorts(s: seq<Record>)
    ensures InOrder(ByTime(s)) && multiset(ByTime(s)) == multiset(s)
  {
    hide Insert, InOrder;
    if |s| > 0 {
      ByTimeSorts(s[..|s| - 1]);
      InsertKeepsOrder(ByTime(s[..|s| - 1]), s[|s| - 1]);
      InsertAddsOne(ByTime(s[..|s| - 1]), s[|s| - 1]);
      SplitLast(s);
    } else {
      NothingInOrder();
    }
  }

  /** It is stable: records of the same time stay as they were. */
  lemma {:induction false} ByTimeIsStable(s: seq<Record>, time: real)
    ensures At(ByTime(s), time) == At(s, time)
  {
    if |s| > 0 {
      hide Insert;
      ByTimeIsStable(s[..|s| - 1], time);
      InsertIsLast(ByTime(s[..|s| - 1]), s[|s| - 1], time);
    }
  }

  // ---- boundaries

  /** Tag counts so far and the number of records that were weighed. */
  datatype Stats = Stats(frequencies: map<string, nat>, seen: nat)

  function Count(frequencies: map<string, nat>, tag: string): nat {
    if tag in frequencies then frequencies[tag] else 0
  }

  /** The smoothed frequency of a tag. */
  function Odds(freq: nat, seen: nat): real {
    (freq + 1) as real / (seen + 1) as real
  }

  /** Tags of one record are weighed one by one; each raises its own count. */
  function Weigh(frequencies: map<string, nat>, seen: nat, log: real -> real, tags: seq<string>)
    : (map<string, nat>, real)
  {
    if |tags| == 0 then (frequencies, 0.0)
    else
      var (before, sum) := Weigh(frequencies, seen, log, tags[..|tags| - 1]);
      var tag := tags[|tags| - 1];
      var odds := Odds(Count(before, tag), seen);
      (before[tag := Count(before, tag) + 1], sum - log(odds))
  }

  function After(s: Stats, log: real -> real, r: Record): Stats {
    Stats(Weigh(s.frequencies, s.seen + 1, log, r.tags).0, s.seen + 1)
  }

  function Surprise(s: Stats, log: real -> real, r: Record): real {
    if |r.tags| == 0 then 0.0 else Weigh(s.frequencies, s.seen + 1, log, r.tags).1 / |r.tags| as real
  }

  function TagSet(tags: seq<string>): set<string> {
    set t | t in tags
  }

  /** Shared tags as a part of all tags of the two. */
  function Jaccard(a: seq<string>, b: seq<string>): real
    requires |a| > 0
  {
    assert a[0] in TagSet(a) + TagSet(b);
    |TagSet(a) * TagSet(b)| as real / |TagSet(a) + TagSet(b)| as real
  }

  /** A quotient. Where `y` is zero the segmenter raises, and the value means nothing. */
  function Ratio(x: real, y: real): real {
    if y == 0.0 then 0.0 else x / y
  }

  function TimeScore(cfg: Config, prev: Record, curr: Record): real
  {
    var gap := curr.createdAt - prev.createdAt;
    if gap > cfg.temporalGap then 1.0 else Ratio(gap, cfg.temporalGap)
  }

  function TagScores(cfg: Config, prev: Record, curr: Record): seq<real> {
    if |prev.tags| > 0 && |curr.tags| > 0 then
      var jaccard := Jaccard(prev.tags, curr.tags);
      [if jaccard < cfg.tagOverlap then 1.0 else 1.0 - jaccard]
    else if |prev.tags| > 0 || |curr.tags| > 0 then [0.8]
    else []
  }

  function Scores(cfg: Config, prev: Record, curr: Record, surprise: real): seq<real>
  {
    [TimeScore(cfg, prev, curr)]
    + TagScores(cfg, prev, curr)
    + (if prev.namespace != curr.namespace then [1.0] else [])
    + [if surprise > cfg.surprise then 1.0 else Ratio(surprise, cfg.surprise)]
  }

  function Sum(s: seq<real>): real {
    if |s| == 0 then 0.0 else Sum(s[..|s| - 1]) + s[|s| - 1]
  }

  /** One very strong signal, or a high average. */
  predicate Fires(scores: seq<real>)
    requires |scores| > 0
  {
    (exists i :: 0 <= i < |scores| && scores[i] > 0.9) || Sum(scores) / |scores| as real > 0.5
  }

  predicate Boundary(cfg: Config, s: Stats, log: real -> real, prev: Record, curr: Record)
  {
    Fires(Scores(cfg, prev, curr, Surprise(s, log, curr)))
  }

  /** The two divisions by a threshold that is zero, in the order they are met. */
  predicate TimeRaises(cfg: Config, prev: Record, curr: Record) {
    cfg.temporalGap == 0.0 && curr.createdAt <= prev.createdAt
  }

  predicate SurpriseRaises(cfg: Config, s: Stats, log: real -> real, curr: Record) {
    cfg.surprise == 0.0 && Surprise(s, log, curr) <= 0.0
  }

  /** Somewhere in the stream a boundary cannot be decided. */
  predicate Raises(cfg: Config, s: Stats, log: real -> real, records: seq<Record>)
    decreases |records|
  {
    |records| > 1
    && (TimeRaises(cfg, records[0], records[1])
        || SurpriseRaises(cfg, s, log, records[1])
        || Raises(cfg, After(s, log, records[1]), log, records[1..]))
  }

  /** With thresholds that are not zero every stream can be segmented. */
  lemma {:induction false} NonZeroNeverRaises(cfg: Config, s: Stats, log: real -> real, records: seq<Record>)
    requires cfg.temporalGap != 0.0 && cfg.surprise != 0.0
    ensures !Raises(cfg, s, log, records)
    decreases |records|
  {
    if |records| > 1 {
      NonZeroNeverRaises(cfg, After(s, log, records[1]), log, records[1..]);
    }
  }

  /** Whether a boundary stands before each record but the first. The first record
      is never weighed. */
  function Boundaries(cfg: Config, s: Stats, log: real -> real, records: seq<Record>): (splits: seq<bool>)
    ensures |splits| == if |records| == 0 then 0 else |records| - 1
    decreases |records|
  {
    if |records| < 2 then []
    else [Boundary(cfg, s, log, records[0], records[1])] + Boundaries(cfg, After(s, log, records[1]), log, records[1..])
  }

  /** The statistics a stream leaves behind, also where it cannot be segmented to its end. */
  ghost function Weighed(cfg: Config, s: Stats, log: real -> real, records: seq<Record>): Stats
    decreases |records|
  {
    if |records| < 2 || TimeRaises(cfg, records[0], records[1]) then s
    else if SurpriseRaises(cfg, s, log, records[1]) then After(s, log, records[1])
    else Weighed(cfg, After(s, log, records[1]), log, records[1..])
  }

  /** What two neighbours in one episode have in common. */
  ghost predicate Joined(cfg: Config, prev: Record, curr: Record) {
    && prev.namespace == curr.namespace
    && cfg.temporalGap > 0.0
    && curr.createdAt - prev.createdAt <= 0.9 * cfg.temporalGap
    && (|prev.tags| > 0 && |curr.tags| > 0 ==>
          Jaccard(prev.tags, curr.tags) >= cfg.tagOverlap && Jaccard(prev.tags, curr.tags) >= 0.1)
  }

  lemma NearInTime(cfg: Config, prev: Record, curr: Record)
    requires !TimeRaises(cfg, prev, curr) && prev.createdAt <= curr.createdAt && TimeScore(cfg, prev, curr) <= 0.9
    ensures cfg.temporalGap > 0.0 && curr.createdAt - prev.createdAt <= 0.9 * cfg.temporalGap
  {
    var gap, ratio := curr.createdAt - prev.createdAt, TimeScore(cfg, prev, curr);
    assert gap <= cfg.temporalGap && gap == ratio * cfg.temporalGap;
  }

  lemma NamespaceChangeFires(cfg: Config, s: Stats, log: real -> real, prev: Record, curr: Record)
    requires prev.namespace != curr.namespace
    ensures Boundary(cfg, s, log, prev, curr)
  {
    hide Surprise, Jaccard, Sum, TimeScore;
    var scores := Scores(cfg, prev, curr, Surprise(s, log, curr));
    assert scores[1 + |TagScores(cfg, prev, curr)|] == 1.0;
  }

  lemma NoBoundaryJoins(cfg: Config, s: Stats, log: real -> real, prev: Record, curr: Record)
    requires !TimeRaises(cfg, prev, curr) && prev.createdAt <= curr.createdAt
    requires !Boundary(cfg, s, log, prev, curr)
    ensures Joined(cfg, prev, curr)
  {
    var scores := Scores(cfg, prev, curr, Surprise(s, log, curr));
    hide Surprise, Jaccard, Sum, TimeScore;
    var tags := TagScores(cfg, prev, curr);
    assert scores[0] == TimeScore(cfg, prev, curr);
    NearInTime(cfg, prev, curr);
    if |prev.tags| > 0 && |curr.tags| > 0 {
      assert scores[1] == tags[0];
    }
    if prev.namespace != curr.namespace {
      NamespaceChangeFires(cfg, s, log, prev, curr);
    }
  }

  /** The surprise of the tags one by one: minus the logarithm of how often a tag was counted
      before, plus one, over the records weighed, plus one. */
  ghost function Unlikeliness(frequencies: map<string, nat>, seen: nat, log: real -> real, tags: seq<string>): real {
    if |tags| == 0 then 0.0
    else
      var n := |tags| - 1;
      var before := Count(frequencies, tags[n]) + multiset(tags[..n])[tags[n]];
      Unlikeliness(frequencies, seen, log, tags[..n]) - log((before + 1) as real / (seen + 1) as real)
  }

  lemma {:induction false} WeighingCounts(frequencies: map<string, nat>, seen: nat, log: real -> real,
                                          tags: seq<string>, t: string)
    ensures Count(Weigh(frequencies, seen, log, tags).0, t) == Count(frequencies, t) + multiset(tags)[t]
  {
    hide Odds;
    if |tags| > 0 {
      WeighingCounts(frequencies, seen, log, tags[..|tags| - 1], t);
      assert tags == tags[..|tags| - 1] + [tags[|tags| - 1]];
    }
  }

  lemma {:induction false} WeighingSums(frequencies: map<string, nat>, seen: nat, log: real -> real, tags: seq<string>)
    ensures Weigh(frequencies, seen, log, tags).1 == Unlikeliness(frequencies, seen, log, tags)
  {
    if |tags| > 0 {
      hide Count;
      WeighingSums(frequencies, seen, log, tags[..|tags| - 1]);
      WeighingCounts(frequencies, seen, log, tags[..|tags| - 1], tags[|tags| - 1]);
    }
  }

  /** The surprise of a record is the mean over its tags, and weighing it counts each of its tags
      once more, and one more record. */
  lemma SurpriseIs(s: Stats, log: real -> real, r: Record)
    ensures Surprise(s, log, r) * |r.tags| as real == Unlikeliness(s.frequencies, s.seen + 1, log, r.tags)
    ensures r.tags == [] ==> Surprise(s, log, r) == 0.0
    ensures var later := After(s, log, r);
            later.seen == s.seen + 1
            && forall t :: Count(later.frequencies, t) == Count(s.frequencies, t) + multiset(r.tags)[t]
  {
    hide Weigh, Unlikeliness, Count;
    WeighingSums(s.frequencies, s.seen + 1, log, r.tags);
    forall t ensures Count(After(s, log, r).frequencies, t) == Count(s.frequencies, t) + multiset(r.tags)[t] {
      WeighingCounts(s.frequencies, s.seen + 1, log, r.tags, t);
    }
    if r.tags == [] {
      NothingUnlikely(s.frequencies, s.seen + 1, log);
    } else {
      var sum, n := Weigh(s.frequencies, s.seen + 1, log, r.tags).1, |r.tags| as real;
      assert (sum / n) * n == sum;
    }
  }

  lemma NothingUnlikely(frequencies: map<string, nat>, seen: nat, log: real -> real)
    ensures Unlikeliness(frequencies, seen, log, []) == 0.0
  {
  }

  /** How often a tag stands in the records of a stream. */
  ghost function Occurrences(records: seq<Record>, tag: string): nat {
    if |records| == 0 then 0 else Occurrences(records[1..], tag) + multiset(records[0].tags)[tag]
  }

  /** After a stream that raises nowhere, all records but the first are weighed. */
  lemma {:induction false} StreamIsCounted(cfg: Config, s: Stats, log: real -> real, records: seq<Record>, tag: string)
    requires |records| > 0 && !Raises(cfg, s, log, records)
    ensures var later := Weighed(cfg, s, log, records);
            && later.seen == s.seen + |records| - 1
            && Count(later.frequencies, tag) == Count(s.frequencies, tag) + Occurrences(records[1..], tag)
    decreases |records|
  {
    if |records| > 1 {
      SurpriseIs(s, log, records[1]);
      hide After, Surprise;
      StreamIsCounted(cfg, After(s, log, records[1]), log, records[1..], tag);
    }
  }

  /** How many signals two records of one namespace give: time, surprise, and tags if one of them
      has any. */
  function SignalCount(prev: Record, curr: Record): real {
    if prev.tags == [] && curr.tags == [] then 2.0 else 3.0
  }

  ghost predicate FarApart(cfg: Config, prev: Record, curr: Record) {
    curr.createdAt - prev.createdAt > 0.9 * cfg.temporalGap
  }

  ghost predicate HardlyOverlap(cfg: Config, prev: Record, curr: Record) {
    && prev.tags != [] && curr.tags != []
    && var both := |set t | t in prev.tags && t in curr.tags| as real;
       var either := |set t | t in prev.tags + curr.tags| as real;
       both < cfg.tagOverlap * either || both < 0.1 * either
  }

  /** One minus the part of the tags that is shared, or four fifths when only one has tags. */
  ghost function TagDistance(prev: Record, curr: Record): real {
    if prev.tags == [] && curr.tags == [] then 0.0
    else if prev.tags == [] || curr.tags == [] then 0.8
    else 1.0 - Jaccard(prev.tags, curr.tags)
  }

  lemma JaccardIs(a: seq<string>, b: seq<string>)
    requires |a| > 0
    ensures var either := |set t | t in a + b|;
            either > 0 && Jaccard(a, b) * either as real == |set t | t in a && t in b| as real
  {
    assert a[0] in TagSet(a) + TagSet(b);
    assert (set t | t in a + b) == TagSet(a) + TagSet(b);
    assert (set t | t in a && t in b) == TagSet(a) * TagSet(b);
  }

  /** With thresholds above zero, a boundary stands between two records in order exactly when
      they are of two namespaces, or far apart, or hardly share tags, or the second one is very
      surprising, or all this together is strong on average. */
  lemma BoundaryIff(cfg: Config, s: Stats, log: real -> real, prev: Record, curr: Record)
    requires cfg.temporalGap > 0.0 && cfg.surprise > 0.0 && prev.createdAt <= curr.createdAt
    ensures Boundary(cfg, s, log, prev, curr) <==>
              || prev.namespace != curr.namespace
              || FarApart(cfg, prev, curr)
              || HardlyOverlap(cfg, prev, curr)
              || Surprise(s, log, curr) > 0.9 * cfg.surprise
              || (curr.createdAt - prev.createdAt) / cfg.temporalGap + Surprise(s, log, curr) / cfg.surprise
                 + TagDistance(prev, curr) > 0.5 * SignalCount(prev, curr)
  {
    var surprise := Surprise(s, log, curr);
    if prev.namespace != curr.namespace {
      NamespaceChangeFires(cfg, s, log, prev, curr);
    } else {
      var time, tags := TimeScore(cfg, prev, curr), TagScores(cfg, prev, curr);
      var strange := if surprise > cfg.surprise then 1.0 else Ratio(surprise, cfg.surprise);
      TimeIsStrongIff(cfg, prev, curr);
      TagsAreStrongIff(cfg, prev, curr);
      PartOf(surprise, cfg.surprise);
      hide Surprise, Jaccard, TimeScore, TagScores, Ratio, FarApart, HardlyOverlap, TagDistance;
      assert Scores(cfg, prev, curr, surprise) == [time] + tags + [strange];
      FiresIff(time, tags, strange);
    }
  }

  lemma PartOf(x: real, y: real)
    requires y > 0.0
    ensures x / y > 0.9 <==> x > 0.9 * y
    ensures x / y > 1.0 <==> x > y
  {
    var q := x / y;
    assert q * y == x;
    Shares(0.9, y, 0.9 * y, q);
    Shares(1.0, y, 1.0 * y, q);
  }

  lemma TimeIsStrongIff(cfg: Config, prev: Record, curr: Record)
    requires cfg.temporalGap > 0.0
    ensures TimeScore(cfg, prev, curr) > 0.9 <==> FarApart(cfg, prev, curr)
    ensures !FarApart(cfg, prev, curr) ==>
              TimeScore(cfg, prev, curr) == (curr.createdAt - prev.createdAt) / cfg.temporalGap
  {
    PartOf(curr.createdAt - prev.createdAt, cfg.temporalGap);
  }

  lemma TagsAreStrongIff(cfg: Config, prev: Record, curr: Record)
    ensures var tags := TagScores(cfg, prev, curr);
            && |tags| as real == SignalCount(prev, curr) - 2.0
            && (|tags| > 0 && tags[0] > 0.9 <==> HardlyOverlap(cfg, prev, curr))
            && (|tags| > 0 && tags[0] <= 0.9 ==> tags[0] == TagDistance(prev, curr))
            && (|tags| == 0 ==> TagDistance(prev, curr) == 0.0)
  {
    hide Jaccard;
    if prev.tags != [] && curr.tags != [] {
      JaccardIs(prev.tags, curr.tags);
      var both := |set t | t in prev.tags && t in curr.tags| as real;
      var either := |set t | t in prev.tags + curr.tags| as real;
      Shares(Jaccard(prev.tags, curr.tags), either, both, cfg.tagOverlap);
      Shares(Jaccard(prev.tags, curr.tags), either, both, 0.1);
    }
  }

  lemma Shares(j: real, either: real, both: real, line: real)
    requires either > 0.0 && j * either == both
    ensures j < line <==> both < line * either
  {
    if j < line {
      assert (line - j) * either > 0.0;
    } else {
      assert (j - line) * either >= 0.0;
    }
  }

  lemma FiresIff(time: real, tags: seq<real>, strange: real)
    requires |tags| <= 1
    ensures var scores, sum := [time] + tags + [strange], time + strange + if tags == [] then 0.0 else tags[0];
            Fires(scores) <==> time > 0.9 || (tags != [] && tags[0] > 0.9) || strange > 0.9
                               || sum > 0.5 * (|tags| as real + 2.0)
  {
    var scores := [time] + tags + [strange];
    var n := |scores|;
    assert scores[0] == time && scores[n - 1] == strange && (tags != [] ==> scores[1] == tags[0]);
    assert scores[..n - 1] == [time] + tags && ([time] + tags)[..|tags|] == if tags == [] then [] else [time];
    assert Sum([time]) == time by { assert [time][..0] == []; }
    assert Sum([time] + tags) == time + if tags == [] then 0.0 else tags[0];
    var sum, count := Sum(scores), n as real;
    assert sum == time + strange + if tags == [] then 0.0 else tags[0];
    assert (sum / count) * count == sum;
    Shares(0.5, count, 0.5 * count, sum / count);
  }

  // ---- cutting

  /** The piece a record joins: the open one, unless a split comes first. */
  function Longer(open: seq<Record>, r: Record, split: bool): seq<Record> {
    (if split then [] else open) + [r]
  }

  /** What one record closes: the open piece at a split, its own piece when that
      reaches the maximum. */
  function Closed(open: seq<Record>, r: Record, split: bool, maxSize: int): seq<seq<Record>> {
    (if split then [open] else [])
    + (if |Longer(open, r, split)| >= maxSize then [Longer(open, r, split)] else [])
  }

  function Opened(open: seq<Record>, r: Record, split: bool, maxSize: int): seq<Record> {
    if |Longer(open, r, split)| >= maxSize then [] else Longer(open, r, split)
  }

  function Cut(open: seq<Record>, rest: seq<Record>, splits: seq<bool>, maxSize: int): seq<seq<Record>>
    requires |rest| == |splits|
    decreases |rest|
  {
    if |rest| == 0 then (if |open| > 0 then [open] else [])
    else
      Closed(open, rest[0], splits[0], maxSize)
      + Cut(Opened(open, rest[0], splits[0], maxSize), rest[1..], splits[1..], maxSize)
  }

  ghost function Flatten(pieces: seq<seq<Record>>): seq<Record> {
    if |pieces| == 0 then [] else pieces[0] + Flatten(pieces[1..])
  }

  lemma {:induction false} FlattenConcat(a: seq<seq<Record>>, b: seq<seq<Record>>)
    ensures Flatten(a + b) == Flatten(a) + Flatten(b)
  {
    if |a| == 0 {
      assert a + b == b;
    } else {
      assert (a + b)[1..] == a[1..] + b;
      FlattenConcat(a[1..], b);
    }
  }

  lemma ClosedConserves(open: seq<Record>, r: Record, split: bool, maxSize: int)
    ensures Flatten(Closed(open, r, split, maxSize)) + Opened(open, r, split, maxSize) == open + [r]
  {
    var longer := Longer(open, r, split);
    assert Flatten([open]) == open + Flatten([]);
    assert Flatten([longer]) == longer + Flatten([]);
    FlattenConcat(if split then [open] else [], if |longer| >= maxSize then [longer] else []);
  }

  lemma CutNothing(open: seq<Record>, maxSize: int)
    ensures Flatten(Cut(open, [], [], maxSize)) == open
  {
    assert Flatten([open]) == open + Flatten([]);
  }

  lemma CutOne(open: seq<Record>, rest: seq<Record>, splits: seq<bool>, maxSize: int)
    requires |rest| == |splits| > 0
    ensures Flatten(Cut(open, rest, splits, maxSize))
         == Flatten(Closed(open, rest[0], splits[0], maxSize))
          + Flatten(Cut(Opened(open, rest[0], splits[0], maxSize), rest[1..], splits[1..], maxSize))
  {
    hide Flatten, Closed, Opened;
    FlattenConcat(Closed(open, rest[0], splits[0], maxSize),
                  Cut(Opened(open, rest[0], splits[0], maxSize), rest[1..], splits[1..], maxSize));
  }

  lemma Regroup(a: seq<Record>, b: seq<Record>, open: seq<Record>, rest: seq<Record>)
    requires |rest| > 0 && a + b == open + [rest[0]]
    ensures a + (b + rest[1..]) == open + rest
  {
    assert a + (b + rest[1..]) == (a + b) + rest[1..];
  }

  /** Cutting loses, adds and reorders nothing. */
  lemma {:induction false} CutConserves(open: seq<Record>, rest: seq<Record>, splits: seq<bool>, maxSize: int)
    requires |rest| == |splits|
    ensures Flatten(Cut(open, rest, splits, maxSize)) == open + rest
    decreases |rest|
  {
    hide Flatten, Cut, Closed, Opened;
    if |rest| == 0 {
      assert rest == [] && splits == [];
      CutNothing(open, maxSize);
    } else {
      var next := Opened(open, rest[0], splits[0], maxSize);
      CutOne(open, rest, splits, maxSize);
      CutConserves(next, rest[1..], splits[1..], maxSize);
      ClosedConserves(open, rest[0], splits[0], maxSize);
      Regroup(Flatten(Closed(open, rest[0], splits[0], maxSize)), next, open, rest);
    }
  }

  function Most(a: int, b: int): int {
    if a >= b then a else b
  }

  /** The first piece starts from the open one, which nobody measured. */
  lemma {:induction false} CutSizes(open: seq<Record>, rest: seq<Record>, splits: seq<bool>, maxSize: int)
    requires |rest| == |splits|
    ensures var pieces := Cut(open, rest, splits, maxSize);
            && (|pieces| > 0 ==> |pieces[0]| <= Most(maxSize, |open| + 1))
            && forall k :: 0 < k < |pieces| ==> |pieces[k]| <= Most(maxSize, 1)
    decreases |rest|
  {
    if |rest| > 0 {
      CutSizes(Opened(open, rest[0], splits[0], maxSize), rest[1..], splits[1..], maxSize);
    }
  }

  /** Where the first `n` pieces end. */
  ghost function EndOf(pieces: seq<seq<Record>>, n: nat): nat
    requires n <= |pieces|
  {
    |Flatten(pieces[..n])|
  }

  lemma EndOfConcat(a: seq<seq<Record>>, b: seq<seq<Record>>, n: nat)
    requires n <= |b|
    ensures EndOf(a + b, |a| + n) == |Flatten(a)| + EndOf(b, n)
  {
    assert (a + b)[..|a| + n] == a + b[..n];
    FlattenConcat(a, b[..n]);
  }

  lemma FirstEnds(open: seq<Record>, pieces: seq<seq<Record>>)
    requires |pieces| > 0 && pieces[0] == open
    ensures EndOf(pieces, 1) == |open|
  {
    assert pieces[..1] == [open] && Flatten([open]) == open + Flatten([]);
  }

  lemma CutStep(open: seq<Record>, rest: seq<Record>, splits: seq<bool>, maxSize: int)
    returns (now: seq<seq<Record>>, next: seq<Record>, later: seq<seq<Record>>)
    requires |rest| == |splits| > 0
    ensures now == Closed(open, rest[0], splits[0], maxSize) && next == Opened(open, rest[0], splits[0], maxSize)
    ensures later == Cut(next, rest[1..], splits[1..], maxSize) && Cut(open, rest, splits, maxSize) == now + later
    ensures |Flatten(now)| + |next| == |open| + 1
  {
    now, next := Closed(open, rest[0], splits[0], maxSize), Opened(open, rest[0], splits[0], maxSize);
    later := Cut(next, rest[1..], splits[1..], maxSize);
    ClosedConserves(open, rest[0], splits[0], maxSize);
  }

  /** The piece has reached the maximum, or a split follows it; the pieces start with `open`
      records that were there before the splits. */
  ghost predicate EndsRightly(pieces: seq<seq<Record>>, k: nat, open: nat, splits: seq<bool>, maxSize: int)
    requires k < |pieces|
  {
    || |pieces[k]| >= maxSize
    || (open <= EndOf(pieces, k + 1) < open + |splits| && splits[EndOf(pieces, k + 1) - open])
  }

  lemma ClosedEnds(open: seq<Record>, r: Record, splits: seq<bool>, maxSize: int, k: nat, later: seq<seq<Record>>)
    requires |splits| > 0 && k < |Closed(open, r, splits[0], maxSize)|
    ensures EndsRightly(Closed(open, r, splits[0], maxSize) + later, k, |open|, splits, maxSize)
  {
    var pieces := Closed(open, r, splits[0], maxSize) + later;
    hide Flatten, EndOf;
    if splits[0] && k == 0 {
      FirstEnds(open, pieces);
    }
  }

  lemma LaterEnds(now: seq<seq<Record>>, later: seq<seq<Record>>, k: nat, open: nat, next: nat, splits: seq<bool>,
                  maxSize: int)
    requires k < |later| && |splits| > 0 && |Flatten(now)| + next == open + 1
    requires EndsRightly(later, k, next, splits[1..], maxSize)
    ensures EndsRightly(now + later, |now| + k, open, splits, maxSize)
  {
    hide Flatten, EndOf;
    EndOfConcat(now, later, k + 1);
  }

  lemma CutAtEnd(open: seq<Record>, rest: seq<Record>, splits: seq<bool>, maxSize: int)
    requires |rest| == |splits|
    ensures |rest| == 0 ==> |Cut(open, rest, splits, maxSize)| <= 1
  {
  }

  /** A piece ends only because it has reached the maximum, or because a split follows. */
  lemma {:induction false} CutEndsBecause(open: seq<Record>, rest: seq<Record>, splits: seq<bool>, maxSize: int, k: nat)
    requires |rest| == |splits| && k + 1 < |Cut(open, rest, splits, maxSize)|
    ensures EndsRightly(Cut(open, rest, splits, maxSize), k, |open|, splits, maxSize)
    decreases |rest|
  {
    hide Closed, Opened, Cut, Flatten, EndOf, EndsRightly;
    CutAtEnd(open, rest, splits, maxSize);
    var now, next, later := CutStep(open, rest, splits, maxSize);
    if k < |now| {
      ClosedEnds(open, rest[0], splits, maxSize, k, later);
    } else {
      CutEndsBecause(next, rest[1..], splits[1..], maxSize, k - |now|);
      LaterEnds(now, later, k - |now|, |open|, |next|, splits, maxSize);
    }
  }

  /** A piece ends after so many records. */
  ghost predicate EndsAt(pieces: seq<seq<Record>>, n: nat) {
    exists k: nat :: k <= |pieces| && EndOf(pieces, k) == n
  }

  lemma EndsLater(now: seq<seq<Record>>, later: seq<seq<Record>>, n: nat)
    requires EndsAt(later, n)
    ensures EndsAt(now + later, |Flatten(now)| + n)
  {
    hide Flatten, EndOf;
    var k: nat :| k <= |later| && EndOf(later, k) == n;
    EndOfConcat(now, later, k);
  }

  /** And at every split a piece ends. */
  lemma {:induction false} CutEndsAtSplits(open: seq<Record>, rest: seq<Record>, splits: seq<bool>, maxSize: int,
                                           i: nat)
    requires |rest| == |splits| && i < |rest| && splits[i]
    ensures EndsAt(Cut(open, rest, splits, maxSize), |open| + i)
    decreases |rest|
  {
    var now, next, later := CutStep(open, rest, splits, maxSize);
    hide Opened, Cut, Flatten, EndOf;
    if i == 0 {
      FirstEnds(open, now + later);
    } else {
      hide Closed, EndsAt;
      CutEndsAtSplits(next, rest[1..], splits[1..], maxSize, i - 1);
      EndsLater(now, later, |next| + (i - 1));
    }
  }

  /** Neighbours in `open + rest` that no split separates are related by `P`. */
  ghost predicate PairsHold(cfg: Config, open: seq<Record>, rest: seq<Record>, splits: seq<bool>)
    requires |rest| == |splits|
  {
    forall i :: 0 <= i < |rest| && !splits[i] ==>
      (i > 0 ==> Joined(cfg, rest[i - 1], rest[i]))
      && (i == 0 && |open| > 0 ==> Joined(cfg, open[|open| - 1], rest[0]))
  }

  ghost predicate Chained(cfg: Config, piece: seq<Record>) {
    forall i :: 0 < i < |piece| ==> Joined(cfg, piece[i - 1], piece[i])
  }

  lemma {:induction false} PiecesAreChained(cfg: Config, open: seq<Record>, rest: seq<Record>, splits: seq<bool>)
    requires |rest| == |splits| && Chained(cfg, open) && PairsHold(cfg, open, rest, splits)
    ensures forall k :: 0 <= k < |Cut(open, rest, splits, cfg.maxSize)| ==>
              Chained(cfg, Cut(open, rest, splits, cfg.maxSize)[k])
    decreases |rest|
  {
    if |rest| > 0 {
      var longer := Longer(open, rest[0], splits[0]);
      hide Joined;
      forall i | 0 < i < |longer| ensures Joined(cfg, longer[i - 1], longer[i]) {
        if i < |open| {
          assert Joined(cfg, open[i - 1], open[i]);
        }
      }
      var next := Opened(open, rest[0], splits[0], cfg.maxSize);
      forall i | 0 <= i < |rest[1..]| && !splits[1..][i]
        ensures i > 0 ==> Joined(cfg, rest[1..][i - 1], rest[1..][i])
        ensures i == 0 && |next| > 0 ==> Joined(cfg, next[|next| - 1], rest[1..][0])
      {
        assert rest[1..][i] == rest[i + 1] && splits[1..][i] == splits[i + 1];
      }
      PiecesAreChained(cfg, next, rest[1..], splits[1..]);
    }
  }

  /** How long the open piece is once each record has been placed. */
  function OpenSize(open: nat, splits: seq<bool>, maxSize: int): nat
  {
    if |splits| == 0 then open
    else
      var n := (if splits[|splits| - 1] then 0 else OpenSize(open, splits[..|splits| - 1], maxSize)) + 1;
      if n >= maxSize then 0 else n
  }

  lemma {:induction false} OpenSizeShift(open: nat, splits: seq<bool>, maxSize: int)
    requires |splits| > 0
    ensures OpenSize(open, splits, maxSize) == OpenSize(OpenSize(open, splits[..1], maxSize), splits[1..], maxSize)
  {
    if |splits| > 1 {
      var init := splits[..|splits| - 1];
      OpenSizeShift(open, init, maxSize);
      assert init[..1] == splits[..1] && init[1..] == splits[1..][..|splits| - 2];
    } else {
      assert splits[..1] == splits;
    }
  }

  /** A split falls where the piece before it was just closed for its size. */
  ghost predicate SplitsNothing(open: nat, splits: seq<bool>, maxSize: int) {
    exists i :: 0 <= i < |splits| && splits[i] && OpenSize(open, splits[..i], maxSize) == 0
  }

  /** An empty episode is emitted exactly when a boundary falls right after a size
      close. */
  lemma {:induction false} EmptyPieceIff(open: seq<Record>, rest: seq<Record>, splits: seq<bool>, maxSize: int)
    requires |rest| == |splits|
    ensures [] in Cut(open, rest, splits, maxSize) <==> SplitsNothing(|open|, splits, maxSize)
    decreases |rest|
  {
    if |rest| > 0 {
      var now, next := Closed(open, rest[0], splits[0], maxSize), Opened(open, rest[0], splits[0], maxSize);
      assert splits[..1][..0] == [];
      assert OpenSize(|open|, splits[..1], maxSize) == |next|;
      EmptyPieceIff(next, rest[1..], splits[1..], maxSize);
      SplitsLater(|open|, splits, maxSize);
      assert [] in now <==> splits[0] && |open| == 0;
      assert [] in now + Cut(next, rest[1..], splits[1..], maxSize)
        <==> [] in now || [] in Cut(next, rest[1..], splits[1..], maxSize);
    }
  }

  lemma SplitsLater(open: nat, splits: seq<bool>, maxSize: int)
    requires |splits| > 0
    ensures SplitsNothing(open, splits, maxSize)
       <==> (splits[0] && open == 0) || SplitsNothing(OpenSize(open, splits[..1], maxSize), splits[1..], maxSize)
  {
    var now := OpenSize(open, splits[..1], maxSize);
    forall i | 0 < i < |splits|
      ensures splits[i] == splits[1..][i - 1]
      ensures OpenSize(open, splits[..i], maxSize) == OpenSize(now, splits[1..][..i - 1], maxSize)
    {
      OpenSizeShift(open, splits[..i], maxSize);
      assert splits[..i][..1] == splits[..1] && splits[..i][1..] == splits[1..][..i - 1];
    }
    assert splits[..0] == [];
    if SplitsNothing(now, splits[1..], maxSize) {
      var i :| 0 <= i < |splits[1..]| && splits[1..][i] && OpenSize(now, splits[1..][..i], maxSize) == 0;
      assert splits[i + 1] && OpenSize(open, splits[..i + 1], maxSize) == 0;
    }
    if SplitsNothing(open, splits, maxSize) {
      var i :| 0 <= i < |splits| && splits[i] && OpenSize(open, splits[..i], maxSize) == 0;
      if i > 0 {
        assert splits[1..][i - 1] && OpenSize(now, splits[1..][..i - 1], maxSize) == 0;
      }
    }
  }

  // ---- episodes

  datatype Episode = Episode(records: seq<Record>, start: Option<real>, end: Option<real>,
                             tags: set<string>, namespace: string)

  const NO_EPISODE := Episode([], None, None, {}, "")

  function AddRecord(e: Episode, r: Record): Episode {
    Episode(e.records + [r],
            if e.start.None? || r.createdAt < e.start.value then Some(r.createdAt) else e.start,
            if e.end.None? || r.createdAt > e.end.value then Some(r.createdAt) else e.end,
            e.tags + TagSet(r.tags), r.namespace)
  }

  function EpisodeOf(piece: seq<Record>): Episode {
    if |piece| == 0 then NO_EPISODE else AddRecord(EpisodeOf(piece[..|piece| - 1]), piece[|piece| - 1])
  }

  lemma EpisodeMore(piece: seq<Record>, r: Record)
    ensures EpisodeOf(piece + [r]) == AddRecord(EpisodeOf(piece), r)
    ensures EpisodeOf(piece).records == piece ==> EpisodeOf(piece + [r]).records == piece + [r]
  {
    assert (piece + [r])[..|piece|] == piece;
  }

  lemma NoEpisode()
    ensures EpisodeOf([]) == NO_EPISODE && NO_EPISODE.records == []
  {
  }

  lemma {:induction false} EpisodeSpans(piece: seq<Record>)
    requires |piece| > 0 && InOrder(piece)
    ensures var e := EpisodeOf(piece);
            && e.records == piece && e.start == Some(piece[0].createdAt)
            && e.end == Some(piece[|piece| - 1].createdAt)
            && e.namespace == piece[|piece| - 1].namespace
  {
    hide EpisodeOf, TagSet;
    var init, last := piece[..|piece| - 1], piece[|piece| - 1];
    assert piece == init + [last];
    EpisodeMore(init, last);
    if |init| > 0 {
      assert init[0] == piece[0] && init[0].createdAt <= last.createdAt;
      assert init[|init| - 1] == piece[|piece| - 2] && init[|init| - 1].createdAt <= last.createdAt;
      EpisodeSpans(init);
    } else {
      NoEpisode();
    }
  }

  /** An episode has the tags of its records and no others. */
  lemma {:induction false} EpisodeTags(piece: seq<Record>, tag: string)
    ensures tag in EpisodeOf(piece).tags <==> exists r :: r in piece && tag in r.tags
  {
    if |piece| > 0 {
      var init, last := piece[..|piece| - 1], piece[|piece| - 1];
      EpisodeTags(init, tag);
      assert piece == init + [last];
      assert forall r :: r in piece <==> r in init || r == last;
    }
  }

  /** At most nine tenths of the temporal gap between neighbours, end to end. */
  ghost predicate ShortSpan(cfg: Config, piece: seq<Record>) {
    |piece| > 0 ==>
      piece[|piece| - 1].createdAt - piece[0].createdAt <= 0.9 * cfg.temporalGap * (|piece| - 1) as real
  }

  ghost predicate OneNamespace(piece: seq<Record>) {
    forall i, j :: 0 <= i < j < |piece| ==> piece[i].namespace == piece[j].namespace
  }

  lemma {:induction false} ChainLength(cfg: Config, piece: seq<Record>)
    requires |piece| > 0 && Chained(cfg, piece)
    ensures ShortSpan(cfg, piece) && OneNamespace(piece)
  {
    if |piece| > 1 {
      var n, init := |piece| - 1, piece[..|piece| - 1];
      ChainLength(cfg, init);
      assert Joined(cfg, piece[n - 1], piece[n]);
      assert 0.9 * cfg.temporalGap * n as real == 0.9 * cfg.temporalGap * (n - 1) as real + 0.9 * cfg.temporalGap;
      assert piece == init + [piece[n]];
    }
  }

  lemma {:induction false} BoundaryAt(cfg: Config, s: Stats, log: real -> real, records: seq<Record>, i: nat)
    requires !Raises(cfg, s, log, records) && InOrder(records)
    requires i + 1 < |records| && !Boundaries(cfg, s, log, records)[i]
    ensures Joined(cfg, records[i], records[i + 1])
    decreases |records|
  {
    hide Joined, Boundary;
    if i == 0 {
      NoBoundaryJoins(cfg, s, log, records[0], records[1]);
    } else {
      BoundaryAt(cfg, After(s, log, records[1]), log, records[1..], i - 1);
    }
  }

  lemma BoundariesSeparate(cfg: Config, s: Stats, log: real -> real, records: seq<Record>)
    requires !Raises(cfg, s, log, records) && InOrder(records) && |records| > 0
    ensures PairsHold(cfg, records[..1], records[1..], Boundaries(cfg, s, log, records))
  {
    var splits, rest := Boundaries(cfg, s, log, records), records[1..];
    hide Joined, Boundaries;
    forall i | 0 <= i < |rest| && !splits[i]
      ensures i > 0 ==> Joined(cfg, rest[i - 1], rest[i])
      ensures i == 0 ==> Joined(cfg, records[..1][0], rest[0])
    {
      BoundaryAt(cfg, s, log, records, i);
    }
  }

  /** The pieces of a stream, as `segment` makes them. */
  function Pieces(cfg: Config, s: Stats, log: real -> real, records: seq<Record>): seq<seq<Record>>
  {
    if |records| == 0 then []
    else
      var sorted := ByTime(records);
      Cut(sorted[..1], sorted[1..], Boundaries(cfg, s, log, sorted), cfg.maxSize)
  }

  ghost predicate GoodPiece(cfg: Config, piece: seq<Record>) {
    InOrder(piece) && OneNamespace(piece) && ShortSpan(cfg, piece) && Chained(cfg, piece)
  }

  /** A piece is a contiguous slice of the stream. */
  lemma {:induction false} PiecesAreSlices(pieces: seq<seq<Record>>, k: nat)
    requires k < |pieces|
    ensures var before := |Flatten(pieces[..k])|;
            && before + |pieces[k]| <= |Flatten(pieces)|
            && Flatten(pieces)[before..before + |pieces[k]|] == pieces[k]
  {
    assert pieces == pieces[..k] + ([pieces[k]] + pieces[k + 1..]);
    FlattenConcat(pieces[..k], [pieces[k]] + pieces[k + 1..]);
    assert ([pieces[k]] + pieces[k + 1..])[1..] == pieces[k + 1..];
  }

  /** Segmenting is a partition: the episodes in order are the records in order of
      time, each one a slice of them in one namespace, of bounded size and span. */
  lemma SegmentationIsPartition(cfg: Config, s: Stats, log: real -> real, records: seq<Record>)
    requires !Raises(cfg, s, log, ByTime(records))
    ensures var pieces := Pieces(cfg, s, log, records);
            && Flatten(pieces) == ByTime(records)
            && (forall k :: 0 <= k < |pieces| ==> |pieces[k]| <= Most(cfg.maxSize, if k == 0 then 2 else 1))
            && (forall k :: 0 <= k < |pieces| ==> GoodPiece(cfg, pieces[k]))
  {
    if |records| > 0 {
      ByTimeSorts(records);
      SortKeepsLength(records);
      PiecesAreGood(cfg, s, log, ByTime(records));
    }
  }

  /** Episodes are as long as they can be: one ends before the last record only where it has
      reached the maximum or a boundary follows, and one ends at every boundary. */
  lemma EpisodesEndIff(cfg: Config, s: Stats, log: real -> real, records: seq<Record>)
    requires |records| > 0
    ensures var pieces, splits := Pieces(cfg, s, log, records), Boundaries(cfg, s, log, ByTime(records));
            && (forall k :: 0 <= k < |pieces| - 1 ==> EndsRightly(pieces, k, 1, splits, cfg.maxSize))
            && (forall i :: 0 <= i < |splits| && splits[i] ==> EndsAt(pieces, i + 1))
  {
    SortKeepsLength(records);
    var sorted, splits := ByTime(records), Boundaries(cfg, s, log, ByTime(records));
    var open, rest, pieces := sorted[..1], sorted[1..], Pieces(cfg, s, log, records);
    hide Boundaries, ByTime, Cut, EndOf, EndsRightly, EndsAt;
    assert pieces == Cut(open, rest, splits, cfg.maxSize) && |open| == 1 && |rest| == |splits|;
    hide Pieces;
    forall k | 0 <= k < |pieces| - 1 ensures EndsRightly(pieces, k, 1, splits, cfg.maxSize) {
      CutEndsBecause(open, rest, splits, cfg.maxSize, k);
    }
    forall i | 0 <= i < |splits| && splits[i] ensures EndsAt(pieces, i + 1) {
      CutEndsAtSplits(open, rest, splits, cfg.maxSize, i);
    }
  }

  lemma PiecesAreGood(cfg: Config, s: Stats, log: real -> real, sorted: seq<Record>)
    requires !Raises(cfg, s, log, sorted) && InOrder(sorted) && |sorted| > 0
    ensures var pieces := Cut(sorted[..1], sorted[1..], Boundaries(cfg, s, log, sorted), cfg.maxSize);
            && Flatten(pieces) == sorted
            && (forall k :: 0 <= k < |pieces| ==> |pieces[k]| <= Most(cfg.maxSize, if k == 0 then 2 else 1))
            && (forall k :: 0 <= k < |pieces| ==> GoodPiece(cfg, pieces[k]))
  {
    var open, rest, splits := sorted[..1], sorted[1..], Boundaries(cfg, s, log, sorted);
    var pieces := Cut(open, rest, splits, cfg.maxSize);
    hide Boundaries, Joined;
    CutConserves(open, rest, splits, cfg.maxSize);
    assert open + rest == sorted;
    CutSizes(open, rest, splits, cfg.maxSize);
    BoundariesSeparate(cfg, s, log, sorted);
    PiecesAreChained(cfg, open, rest, splits);
    hide Cut, PairsHold;
    forall k | 0 <= k < |pieces| ensures GoodPiece(cfg, pieces[k]) {
      SliceIsGood(cfg, pieces, k);
    }
  }

  lemma SliceKeepsOrder(s: seq<Record>, from: nat, to: nat)
    requires InOrder(s) && from <= to <= |s|
    ensures InOrder(s[from..to])
  {
  }

  lemma EmptySpan(cfg: Config, piece: seq<Record>)
    requires |piece| == 0
    ensures OneNamespace(piece) && ShortSpan(cfg, piece)
  {
  }

  lemma SliceIsGood(cfg: Config, pieces: seq<seq<Record>>, k: nat)
    requires k < |pieces| && InOrder(Flatten(pieces)) && Chained(cfg, pieces[k])
    ensures GoodPiece(cfg, pieces[k])
  {
    PiecesAreSlices(pieces, k);
    hide Flatten, InOrder, OneNamespace, Chained, ShortSpan;
    var from := |Flatten(pieces[..k])|;
    SliceKeepsOrder(Flatten(pieces), from, from + |pieces[k]|);
    if |pieces[k]| > 0 {
      ChainLength(cfg, pieces[k]);
    } else {
      EmptySpan(cfg, pieces[k]);
    }
  }

  /** With the maximum reached and a boundary next, an empty episode comes out. */
  lemma EmptyEpisodeIff(cfg: Config, s: Stats, log: real -> real, records: seq<Record>)
    requires |records| > 0
    ensures [] in Pieces(cfg, s, log, records)
       <==> SplitsNothing(1, Boundaries(cfg, s, log, ByTime(records)), cfg.maxSize)
  {
    ByTimeSorts(records);
    var sorted := ByTime(records);
    assert |multiset(sorted)| == |multiset(records)|;
    EmptyPieceIff(sorted[..1], sorted[1..], Boundaries(cfg, s, log, sorted), cfg.maxSize);
  }

  /** Three records without tags in one namespace, the first two at once and the third past
      the gap, with a maximum of two: the second closes the episode for its size, and the
      boundary after it closes an empty one. */
  lemma EmptyEpisodeHappens(cfg: Config, s: Stats, log: real -> real, a: Record, b: Record, c: Record)
    requires cfg.temporalGap > 0.0 && cfg.surprise > 0.0 && cfg.maxSize == 2
    requires a.tags == b.tags == c.tags == [] && a.namespace == b.namespace == c.namespace
    requires a.createdAt == b.createdAt == 0.0 && c.createdAt == cfg.temporalGap + 1.0
    ensures !Raises(cfg, s, log, ByTime([a, b, c]))
    ensures [] in Pieces(cfg, s, log, [a, b, c])
  {
    ThreeInOrder(a, b, c);
    NonZeroNeverRaises(cfg, s, log, [a, b, c]);
    QuietPair(cfg, s, log, a, b);
    var splits := Boundaries(cfg, s, log, [a, b, c]);
    var later := After(s, log, b);
    assert [a, b, c][1..] == [b, c] && [b, c][1..] == [c];
    assert Boundary(cfg, later, log, b, c) by {
      assert Scores(cfg, b, c, Surprise(later, log, c))[0] == 1.0;
    }
    assert splits[0] == Boundary(cfg, s, log, a, b);
    assert splits[1] == Boundaries(cfg, later, log, [b, c])[0];
    hide Boundaries, Boundary;
    assert splits[..1] == [false] && [false][..0] == [];
    assert OpenSize(1, splits[..1], 2) == 0;
    EmptyPieceIff([a], [b, c], splits, 2);
    assert [a, b, c][..1] == [a];
  }

  lemma ThreeInOrder(a: Record, b: Record, c: Record)
    requires a.createdAt <= b.createdAt <= c.createdAt
    ensures ByTime([a, b, c]) == [a, b, c]
  {
    assert [a, b, c][..2] == [a, b] && [a, b][..1] == [a] && [a][..0] == [];
    assert ByTime([a]) == [a];
    assert ByTime([a, b]) == [a, b];
  }

  /** Two records at once, without tags, in one namespace: no signal at all. */
  lemma QuietPair(cfg: Config, s: Stats, log: real -> real, a: Record, b: Record)
    requires cfg.temporalGap > 0.0 && cfg.surprise > 0.0
    requires a.tags == b.tags == [] && a.namespace == b.namespace && a.createdAt == b.createdAt
    ensures !Boundary(cfg, s, log, a, b)
  {
    assert Surprise(s, log, b) == 0.0;
    assert TimeScore(cfg, a, b) == 0.0 && Ratio(0.0, cfg.surprise) == 0.0;
    assert |TagScores(cfg, a, b)| == 0;
    var scores := Scores(cfg, a, b, 0.0);
    assert |scores| == 2 && scores[0] == 0.0 && scores[1] == 0.0;
    assert scores[..1][..0] == [] && Sum(scores[..1]) == Sum([]) + scores[0];
    assert Sum(scores) == Sum(scores[..1]) + scores[1];
  }

  /** What is still to come of the pieces, once `closed` is emitted. */
  ghost function Yet(cfg: Config, s: Stats, log: real -> real, sorted: seq<Record>, i: nat, open: seq<Record>)
    : seq<seq<Record>>
    requires 0 < i <= |sorted|
  {
    Cut(open, sorted[i..], Boundaries(cfg, s, log, sorted[i - 1..]), cfg.maxSize)
  }

  lemma SplitsShift(cfg: Config, s: Stats, log: real -> real, sorted: seq<Record>, i: nat)
    requires 0 < i < |sorted|
    ensures Boundaries(cfg, s, log, sorted[i - 1..])
         == [Boundary(cfg, s, log, sorted[i - 1], sorted[i])]
            + Boundaries(cfg, After(s, log, sorted[i]), log, sorted[i..])
  {
    assert sorted[i - 1..][1..] == sorted[i..];
    hide Boundary, After;
  }

  lemma YetUnfolds(cfg: Config, s: Stats, log: real -> real, sorted: seq<Record>, i: nat, open: seq<Record>)
    requires 0 < i < |sorted|
    ensures var split, later := Boundary(cfg, s, log, sorted[i - 1], sorted[i]), After(s, log, sorted[i]);
            Closed(open, sorted[i], split, cfg.maxSize)
            + Yet(cfg, later, log, sorted, i + 1, Opened(open, sorted[i], split, cfg.maxSize))
            == Yet(cfg, s, log, sorted, i, open)
  {
    SplitsShift(cfg, s, log, sorted, i);
    hide Boundary, Boundaries, After, Closed, Opened;
    var splits := Boundaries(cfg, s, log, sorted[i - 1..]);
    var tail := Boundaries(cfg, After(s, log, sorted[i]), log, sorted[i..]);
    assert splits[1..] == tail && sorted[i..][1..] == sorted[i + 1..];
  }

  /** What is closed and what is still to come make up the pieces. */
  ghost predicate Emitting(cfg: Config, s: Stats, log: real -> real, sorted: seq<Record>, i: nat, open: seq<Record>,
                           closed: seq<seq<Record>>, pieces: seq<seq<Record>>)
    requires 0 < i <= |sorted|
  {
    closed + Yet(cfg, s, log, sorted, i, open) == pieces
  }

  lemma PlaceRecord(cfg: Config, s: Stats, log: real -> real, sorted: seq<Record>, i: nat, open: seq<Record>,
                    closed: seq<seq<Record>>, pieces: seq<seq<Record>>)
    requires 0 < i < |sorted| && Emitting(cfg, s, log, sorted, i, open, closed, pieces)
    ensures var split, later := Boundary(cfg, s, log, sorted[i - 1], sorted[i]), After(s, log, sorted[i]);
            Emitting(cfg, later, log, sorted, i + 1, Opened(open, sorted[i], split, cfg.maxSize),
                     closed + Closed(open, sorted[i], split, cfg.maxSize), pieces)
  {
    YetUnfolds(cfg, s, log, sorted, i, open);
    hide Boundary, After, Closed, Opened, Yet;
    var split, later := Boundary(cfg, s, log, sorted[i - 1], sorted[i]), After(s, log, sorted[i]);
    ConcatAssociates(closed, Closed(open, sorted[i], split, cfg.maxSize),
                     Yet(cfg, later, log, sorted, i + 1, Opened(open, sorted[i], split, cfg.maxSize)));
  }

  // ---- the segmenter object

  class EpisodicSegmenter {
    const cfg: Config
    var stats: Stats

    constructor (cfg: Config)
      ensures this.cfg == cfg && stats == Stats(map[], 0)
    {
      this.cfg := cfg;
      stats := Stats(map[], 0);
    }

    method ComputeSurprise(log: real -> real, r: Record) returns (surprise: real)
      modifies this`stats
      ensures surprise == Surprise(old(stats), log, r) && stats == After(old(stats), log, r)
    {
      hide Odds;
      stats := stats.(seen := stats.seen + 1);
      if |r.tags| == 0 {
        return 0.0;
      }
      surprise := 0.0;
      var i := 0;
      while i < |r.tags|
        invariant 0 <= i <= |r.tags| && stats.seen == old(stats).seen + 1
        invariant (stats.frequencies, surprise)
               == Weigh(old(stats).frequencies, old(stats).seen + 1, log, r.tags[..i])
      {
        var tag := r.tags[i];
        var freq := Count(stats.frequencies, tag);
        var odds := Odds(freq, stats.seen);
        surprise := surprise - log(odds);
        stats := stats.(frequencies := stats.frequencies[tag := freq + 1]);
        assert r.tags[..i + 1][..i] == r.tags[..i];
        i := i + 1;
      }
      assert r.tags[..i] == r.tags;
      surprise := surprise / |r.tags| as real;
    }

    /** None where a division by zero raises: by the gap before the record is weighed, by
        the threshold of surprise after it. */
    method IsBoundary(log: real -> real, prev: Record, curr: Record) returns (boundary: Option<bool>)
      modifies this`stats
      ensures boundary == if TimeRaises(cfg, prev, curr) || SurpriseRaises(cfg, old(stats), log, curr) then None
                          else Some(Boundary(cfg, old(stats), log, prev, curr))
      ensures stats == if TimeRaises(cfg, prev, curr) then old(stats) else After(old(stats), log, curr)
    {
      if curr.createdAt - prev.createdAt <= cfg.temporalGap && cfg.temporalGap == 0.0 {
        return None;
      }
      var surprise := ComputeSurprise(log, curr);
      if surprise <= cfg.surprise && cfg.surprise == 0.0 {
        return None;
      }
      boundary := Some(Fires(Scores(cfg, prev, curr, surprise)));
    }

    /** Put one record into the open episode, closing episodes on the way. */
    method Place(current: Episode, r: Record, boundary: bool, ghost open: seq<Record>)
      returns (closed: seq<Episode>, next: Episode)
      requires current == EpisodeOf(open) && current.records == open
      ensures Match(closed, Closed(open, r, boundary, cfg.maxSize))
      ensures next == EpisodeOf(Opened(open, r, boundary, cfg.maxSize))
      ensures next.records == Opened(open, r, boundary, cfg.maxSize)
    {
      hide EpisodeOf, AddRecord;
      NoEpisode();
      next, closed := current, [];
      ghost var kept := if boundary then [] else open;
      if boundary {
        closed, next := [next], NO_EPISODE;
      }
      EpisodeMore(kept, r);
      next := AddRecord(next, r);
      if |next.records| >= cfg.maxSize {
        closed, next := closed + [next], NO_EPISODE;
      }
    }

    /** Decide the boundary before a record and put the record into its episode. */
    method Take(log: real -> real, prev: Record, curr: Record, current: Episode, ghost open: seq<Record>)
      returns (closed: Option<seq<Episode>>, next: Episode)
      requires current == EpisodeOf(open) && current.records == open
      modifies this`stats
      ensures closed.None? <==> TimeRaises(cfg, prev, curr) || SurpriseRaises(cfg, old(stats), log, curr)
      ensures stats == if TimeRaises(cfg, prev, curr) then old(stats) else After(old(stats), log, curr)
      ensures var split := Boundary(cfg, old(stats), log, prev, curr);
              closed.Some? ==>
                && Match(closed.value, Closed(open, curr, split, cfg.maxSize))
                && next == EpisodeOf(Opened(open, curr, split, cfg.maxSize))
                && next.records == Opened(open, curr, split, cfg.maxSize)
    {
      hide *;
      var boundary := IsBoundary(log, prev, curr);
      if boundary.None? {
        return None, current;
      }
      var pieces;
      pieces, next := Place(current, curr, boundary.value, open);
      closed := Some(pieces);
    }

    /** The episodes of a stream, or none at all where a boundary cannot be decided. */
    method Segment(log: real -> real, records: seq<Record>) returns (episodes: Option<seq<Episode>>)
      modifies this`stats
      ensures episodes.None? <==> Raises(cfg, old(stats), log, ByTime(records))
      ensures episodes.Some? ==> Match(episodes.value, Pieces(cfg, old(stats), log, records))
      ensures stats == Weighed(cfg, old(stats), log, ByTime(records))
    {
      hide *;
      var sorted := ByTime(records);
      SortKeepsLength(records);
      if |records| == 0 {
        EmptyStream(cfg, stats, log, records);
        return Some([]);
      }
      FirstEpisode(cfg, stats, log, records, sorted);
      ghost var pieces := Pieces(cfg, stats, log, records);
      var current, done, i := AddRecord(NO_EPISODE, sorted[0]), [], 1;
      ghost var open, closed := sorted[..1], [];
      while i < |sorted|
        invariant 1 <= i <= |sorted|
        invariant current == EpisodeOf(open) && current.records == open
        invariant Match(done, closed)
        invariant Emitting(cfg, stats, log, sorted, i, open, closed, pieces)
        invariant OnTrack(cfg, old(stats), stats, log, sorted, i)
      {
        PlaceRecord(cfg, stats, log, sorted, i, open, closed, pieces);
        OneWeighed(cfg, old(stats), stats, log, sorted, i);
        ghost var split := Boundary(cfg, stats, log, sorted[i - 1], sorted[i]);
        var more, next := Take(log, sorted[i - 1], sorted[i], current, open);
        if more.None? {
          return None;
        }
        MatchConcat(done, closed, more.value, Closed(open, sorted[i], split, cfg.maxSize));
        done, current := done + more.value, next;
        closed := closed + Closed(open, sorted[i], split, cfg.maxSize);
        open := Opened(open, sorted[i], split, cfg.maxSize);
        i := i + 1;
      }
      LastEpisode(cfg, stats, log, sorted, open, closed, pieces);
      OnTrackEnds(cfg, old(stats), stats, log, sorted);
      if |current.records| > 0 {
        MatchConcat(done, closed, [current], [open]);
        done := done + [current];
      }
      episodes := Some(done);
    }
  }

  /** From `now` on the stream goes as it went from `first` on: it raises, or not, and
      leaves the same statistics behind. */
  ghost predicate OnTrack(cfg: Config, first: Stats, now: Stats, log: real -> real, sorted: seq<Record>, i: nat)
    requires 0 < i <= |sorted|
  {
    && Raises(cfg, now, log, sorted[i - 1..]) == Raises(cfg, first, log, sorted)
    && Weighed(cfg, now, log, sorted[i - 1..]) == Weighed(cfg, first, log, sorted)
  }

  lemma OneWeighed(cfg: Config, first: Stats, now: Stats, log: real -> real, sorted: seq<Record>, i: nat)
    requires 0 < i < |sorted| && OnTrack(cfg, first, now, log, sorted, i)
    ensures var time, surprise := TimeRaises(cfg, sorted[i - 1], sorted[i]), SurpriseRaises(cfg, now, log, sorted[i]);
            if time || surprise then
              && Raises(cfg, first, log, sorted)
              && Weighed(cfg, first, log, sorted) == if time then now else After(now, log, sorted[i])
            else
              OnTrack(cfg, first, After(now, log, sorted[i]), log, sorted, i + 1)
  {
    assert sorted[i - 1..][1..] == sorted[i..];
    hide TimeRaises, SurpriseRaises, After;
  }

  lemma OnTrackEnds(cfg: Config, first: Stats, now: Stats, log: real -> real, sorted: seq<Record>)
    requires |sorted| > 0
    ensures OnTrack(cfg, first, first, log, sorted, 1)
    ensures OnTrack(cfg, first, now, log, sorted, |sorted|) ==>
              !Raises(cfg, first, log, sorted) && Weighed(cfg, first, log, sorted) == now
  {
    assert sorted[0..] == sorted;
  }

  /** The episodes carry exactly the records of the pieces, in their order. */
  ghost predicate Match(episodes: seq<Episode>, pieces: seq<seq<Record>>) {
    |episodes| == |pieces| && forall k :: 0 <= k < |pieces| ==> episodes[k] == EpisodeOf(pieces[k])
  }

  lemma MatchConcat(episodes: seq<Episode>, closed: seq<seq<Record>>, more: seq<Episode>, pieces: seq<seq<Record>>)
    requires Match(episodes, closed)
    ensures Match(more, pieces) ==> Match(episodes + more, closed + pieces)
    ensures |more| == 1 && |pieces| == 1 && more[0] == EpisodeOf(pieces[0]) ==> Match(episodes + more, closed + pieces)
  {
    hide EpisodeOf;
  }

  lemma SortKeepsLength(records: seq<Record>)
    ensures |ByTime(records)| == |records|
  {
    ByTimeSorts(records);
    assert |multiset(ByTime(records))| == |multiset(records)|;
  }

  lemma EmptyStream(cfg: Config, s: Stats, log: real -> real, records: seq<Record>)
    requires |records| == 0
    ensures !Raises(cfg, s, log, ByTime(records)) && Weighed(cfg, s, log, ByTime(records)) == s
    ensures Match([], Pieces(cfg, s, log, records))
  {
  }

  lemma FirstEpisode(cfg: Config, s: Stats, log: real -> real, records: seq<Record>, sorted: seq<Record>)
    requires |records| > 0 && |sorted| > 0 && sorted == ByTime(records)
    ensures EpisodeOf(sorted[..1]) == AddRecord(NO_EPISODE, sorted[0])
    ensures AddRecord(NO_EPISODE, sorted[0]).records == sorted[..1]
    ensures Emitting(cfg, s, log, sorted, 1, sorted[..1], [], Pieces(cfg, s, log, records))
    ensures OnTrack(cfg, s, s, log, sorted, 1)
    ensures Match([], [])
  {
    hide ByTime, Cut, Boundaries, Raises, Weighed;
    assert sorted[..1][..0] == [] && sorted[0..] == sorted;
  }

  lemma LastEpisode(cfg: Config, s: Stats, log: real -> real, sorted: seq<Record>, open: seq<Record>,
                    closed: seq<seq<Record>>, pieces: seq<seq<Record>>)
    requires |sorted| > 0 && Emitting(cfg, s, log, sorted, |sorted|, open, closed, pieces)
    ensures pieces == if |open| > 0 then closed + [open] else closed
  {
  }
}
