/** Merging per-file near-miss results into the run's aggregate (`cmd_near`,
    Search.py): buckets keyed by edit distance, each mapping a token to its
    hit count and its first locations. */
module NearMerge {
  import opened Strings
  import opened SearchTypes

  type Bucket = map<string, NearTokenAggregate>
  type Buckets = map<int, Bucket>

  function Restrict<K, V>(m: map<K, V>, ks: set<K>): (r: map<K, V>)
    ensures r.Keys == m.Keys * ks
    ensures forall k :: k in r ==> r[k] == m[k]
  {
    map k | k in m.Keys && k in ks :: m[k]
  }

  function Lookup(b: Bucket, tok: string): Option<NearTokenAggregate> {
    if tok in b then Some(b[tok]) else None
  }

  function BucketAt(agg: Buckets, d: int): Bucket {
    if d in agg then agg[d] else map[]
  }

  /** The merge of one file's aggregate `a` for `tok` into the running one:
      a new token is copied; a known one adds the count and extends its
      locations by as many of the file's as the cap still allows (all of
      them when the cap is 0, none when it is already reached). */
  function MergeEntry(cur: Option<NearTokenAggregate>, tok: string, a: NearTokenAggregate, maxLocs: int): NearTokenAggregate {
    match cur
    case None => NearTokenAggregate(tok, a.count, a.locs)
    case Some(c) =>
      var remain := maxLocs - |c.locs|;
      var locs := if maxLocs == 0 then c.locs + a.locs
                  else if remain > 0 then c.locs + a.locs[..Min(remain, |a.locs|)]
                  else c.locs;
      NearTokenAggregate(c.token, c.count + a.count, locs)
  }

  /** One distance bucket after merging a file's token map into it. */
  function MergeBucket(bucket: Bucket, tm: Bucket, maxLocs: int): Bucket {
    map tok | tok in bucket.Keys + tm.Keys ::
      if tok in tm then MergeEntry(Lookup(bucket, tok), tok, tm[tok], maxLocs) else bucket[tok]
  }

  /** The aggregate after merging one file's result: every distance of the
      file gets a bucket (`setdefault`), even when its token map is empty. */
  function MergePartial(agg: Buckets, partial: Buckets, maxLocs: int): Buckets {
    map d | d in agg.Keys + partial.Keys ::
      if d in partial then MergeBucket(BucketAt(agg, d), partial[d], maxLocs) else agg[d]
  }

  /** The hit count recorded for `tok` at distance `d`, 0 when absent. */
  function CountOf(agg: Buckets, d: int, tok: string): int {
    if d in agg && tok in agg[d] then agg[d][tok].count else 0
  }

  /** The locations recorded for `tok` at distance `d`, none when absent. */
  function LocsOf(agg: Buckets, d: int, tok: string): seq<Occurrence> {
    if d in agg && tok in agg[d] then agg[d][tok].locs else []
  }

  /** A location list within the per-token cap: any length when the cap is
      0, empty when it is negative (the per-file scan then never appends). */
  predicate Capped(locs: seq<Occurrence>, maxLocs: int) {
    maxLocs == 0 || |locs| <= Max(maxLocs, 0)
  }

  predicate AllCapped(agg: Buckets, maxLocs: int) {
    forall d, tok :: d in agg && tok in agg[d] ==> Capped(agg[d][tok].locs, maxLocs)
  }

  /** Merging adds the counts, keeps the token, and, for capped inputs,
      keeps exactly the first `maxLocs` of the running locations followed
      by the file's, so the result is capped as well. */
  lemma MergeEntrySpec(cur: Option<NearTokenAggregate>, tok: string, a: NearTokenAggregate, maxLocs: int)
    requires cur.Some? ==> Capped(cur.value.locs, maxLocs) && cur.value.token == tok
    requires Capped(a.locs, maxLocs)
    ensures var r := MergeEntry(cur, tok, a, maxLocs);
            var before := if cur.Some? then cur.value.locs else [];
            && r.token == tok
            && r.count == (if cur.Some? then cur.value.count else 0) + a.count
            && r.locs == Keep(before + a.locs, maxLocs)
            && Capped(r.locs, maxLocs)
  {
    var before := if cur.Some? then cur.value.locs else [];
    var r := MergeEntry(cur, tok, a, maxLocs);
    if cur.None? {
      assert before + a.locs == a.locs;
      KeepWithinCap(a.locs, maxLocs);
    } else if maxLocs > 0 {
      var c := cur.value;
      var remain := maxLocs - |c.locs|;
      if remain > 0 {
        assert (c.locs + a.locs)[..Min(|c.locs + a.locs|, maxLocs)] == c.locs + a.locs[..Min(remain, |a.locs|)];
      } else {
        assert (c.locs + a.locs)[..Min(|c.locs + a.locs|, maxLocs)] == c.locs;
      }
    } else if maxLocs < 0 {
      assert before == [] && a.locs == [];
    }
  }

  /** After a merge the distances are those of either side, each token is
      present iff it was in the aggregate or the file, and its count is the
      sum of the two. */
  lemma MergePartialCounts(agg: Buckets, partial: Buckets, maxLocs: int, d: int, tok: string)
    ensures MergePartial(agg, partial, maxLocs).Keys == agg.Keys + partial.Keys
    ensures var r := MergePartial(agg, partial, maxLocs);
            (d in r && tok in r[d]) <==> ((d in agg && tok in agg[d]) || (d in partial && tok in partial[d]))
    ensures CountOf(MergePartial(agg, partial, maxLocs), d, tok) == CountOf(agg, d, tok) + CountOf(partial, d, tok)
  {
  }

  /** A merge of capped aggregates is capped, and the locations of each
      token are the first `maxLocs` of the aggregate's followed by the
      file's. */
  lemma MergePartialLocs(agg: Buckets, partial: Buckets, maxLocs: int, d: int, tok: string)
    requires AllCapped(agg, maxLocs) && AllCapped(partial, maxLocs)
    requires forall d', t :: d' in agg && t in agg[d'] ==> agg[d'][t].token == t
    ensures LocsOf(MergePartial(agg, partial, maxLocs), d, tok) == Keep(LocsOf(agg, d, tok) + LocsOf(partial, d, tok), maxLocs)
  {
    if d in partial && tok in partial[d] {
      MergeEntrySpec(Lookup(BucketAt(agg, d), tok), tok, partial[d][tok], maxLocs);
    } else {
      assert LocsOf(agg, d, tok) + [] == LocsOf(agg, d, tok);
      KeepWithinCap(LocsOf(agg, d, tok), maxLocs);
    }
  }

  /** The merge of a capped aggregate and a capped file result is capped,
      and every token keeps its own name. */
  lemma MergePartialCapped(agg: Buckets, partial: Buckets, maxLocs: int)
    requires AllCapped(agg, maxLocs) && AllCapped(partial, maxLocs)
    requires forall d, t :: d in agg && t in agg[d] ==> agg[d][t].token == t
    ensures AllCapped(MergePartial(agg, partial, maxLocs), maxLocs)
    ensures var r := MergePartial(agg, partial, maxLocs);
            forall d, t :: d in r && t in r[d] ==> r[d][t].token == t
  {
    var r: Buckets := MergePartial(agg, partial, maxLocs);
    forall d: int, t: string | d in r && t in r[d]
      ensures Capped(r[d][t].locs, maxLocs) && r[d][t].token == t
    {
      if d in partial && t in partial[d] {
        MergeEntrySpec(Lookup(BucketAt(agg, d), t), t, partial[d][t], maxLocs);
      }
    }
  }

  /** Merging the file results in order, starting from an empty aggregate. */
  function MergeAll(parts: seq<Buckets>, maxLocs: int): Buckets {
    if parts == [] then map[] else MergePartial(MergeAll(parts[..|parts| - 1], maxLocs), parts[|parts| - 1], maxLocs)
  }

  function TotalCount(parts: seq<Buckets>, d: int, tok: string): int {
    if parts == [] then 0 else TotalCount(parts[..|parts| - 1], d, tok) + CountOf(parts[|parts| - 1], d, tok)
  }

  function AllLocs(parts: seq<Buckets>, d: int, tok: string): seq<Occurrence> {
    if parts == [] then [] else AllLocs(parts[..|parts| - 1], d, tok) + LocsOf(parts[|parts| - 1], d, tok)
  }

  lemma KeepKeepAppend(x: seq<Occurrence>, y: seq<Occurrence>, maxLocs: int)
    ensures Keep(Keep(x, maxLocs) + y, maxLocs) == Keep(x + y, maxLocs)
  {
    if maxLocs > 0 {
      if |x| >= maxLocs {
        assert (x + y)[..maxLocs] == x[..maxLocs];
        assert (x[..maxLocs] + y)[..maxLocs] == x[..maxLocs];
      } else {
        assert Keep(x, maxLocs) == x;
      }
    }
  }

  /** The sequential merge over all files agrees with one scan of all of
      them: each token's count is the sum over the files, and its
      locations are the first `maxLocs` of all its locations in file
      order. */
  lemma {:induction false} MergeAllSpec(parts: seq<Buckets>, maxLocs: int, d: int, tok: string)
    requires forall i :: 0 <= i < |parts| ==> AllCapped(parts[i], maxLocs)
    ensures AllCapped(MergeAll(parts, maxLocs), maxLocs)
    ensures var r := MergeAll(parts, maxLocs);
            forall d', t :: d' in r && t in r[d'] ==> r[d'][t].token == t
    ensures CountOf(MergeAll(parts, maxLocs), d, tok) == TotalCount(parts, d, tok)
    ensures LocsOf(MergeAll(parts, maxLocs), d, tok) == Keep(AllLocs(parts, d, tok), maxLocs)
    decreases |parts|
  {
    if parts != [] {
      var init := parts[..|parts| - 1];
      var last := parts[|parts| - 1];
      MergeAllSpec(init, maxLocs, d, tok);
      var prev := MergeAll(init, maxLocs);
      MergePartialCounts(prev, last, maxLocs, d, tok);
      MergePartialLocs(prev, last, maxLocs, d, tok);
      MergePartialCapped(prev, last, maxLocs);
      KeepKeepAppend(AllLocs(init, d, tok), LocsOf(last, d, tok), maxLocs);
    }
  }

  /** The run's near-miss aggregate, updated in place as file results
      arrive. */
  class NearAggregate {
    var buckets: Buckets
    const maxLocs: int

    constructor(maxLocs: int)
      ensures buckets == map[] && this.maxLocs == maxLocs
    {
      buckets := map[];
      this.maxLocs := maxLocs;
    }

    /** Folds one file's result into the aggregate, distance by distance and
        token by token. */
    method Merge(partial: Buckets)
      modifies this`buckets
      ensures buckets == MergePartial(old(buckets), partial, maxLocs)
    {
      ghost var agg0 := buckets;
      ghost var done: set<int> := {};
      var todo := partial.Keys;
      while todo != {}
        invariant todo !! done && todo + done == partial.Keys
        invariant buckets == MergePartial(agg0, Restrict(partial, done), maxLocs)
        decreases todo
      {
        var d := Pick(todo);
        PartialStep(agg0, partial, done, d, buckets, maxLocs);
        var bucket := MergeTokens(BucketAt(buckets, d), partial[d]);
        buckets := buckets[d := bucket];
        todo := todo - {d};
        done := done + {d};
      }
      assert Restrict(partial, done) == partial;
    }

    /** Merges one distance's token map into its bucket. */
    method MergeTokens(bucket0: Bucket, tm: Bucket) returns (bucket: Bucket)
      ensures bucket == MergeBucket(bucket0, tm, maxLocs)
    {
      bucket := bucket0;
      ghost var done: set<string> := {};
      var toks := tm.Keys;
      while toks != {}
        invariant toks !! done && toks + done == tm.Keys
        invariant bucket == MergeBucket(bucket0, Restrict(tm, done), maxLocs)
        decreases toks
      {
        var tok :| tok in toks;
        BucketStep(bucket0, tm, done, tok, maxLocs);
        var entry := MergeOne(Lookup(bucket, tok), tok, tm[tok]);
        bucket := bucket[tok := entry];
        toks := toks - {tok};
        done := done + {tok};
      }
      assert Restrict(tm, done) == tm;
    }

    /** The body of the token loop: a new token is copied, a known one has
        its count raised and its locations extended up to the cap. */
    method MergeOne(cur: Option<NearTokenAggregate>, tok: string, a: NearTokenAggregate) returns (entry: NearTokenAggregate)
      ensures entry == MergeEntry(cur, tok, a, maxLocs)
    {
      if cur.None? {
        entry := NearTokenAggregate(tok, a.count, a.locs);
      } else {
        var c := cur.value;
        var locs := c.locs;
        if maxLocs == 0 {
          locs := locs + a.locs;
        } else {
          var remain := maxLocs - |c.locs|;
          if remain > 0 {
            locs := locs + a.locs[..Min(remain, |a.locs|)];
          }
        }
        entry := NearTokenAggregate(c.token, c.count + a.count, locs);
      }
    }
  }

  /** Some key still to be merged; dictionary iteration order is not
      modelled, and the merge does not depend on it. */
  method Pick<T>(s: set<T>) returns (x: T)
    requires s != {}
    ensures x in s
  {
    x :| x in s;
  }

  lemma BucketStep(bucket0: Bucket, tm: Bucket, done: set<string>, tok: string, maxLocs: int)
    requires tok in tm && tok !in done
    ensures var before := MergeBucket(bucket0, Restrict(tm, done), maxLocs);
            Lookup(before, tok) == Lookup(bucket0, tok) &&
            MergeBucket(bucket0, Restrict(tm, done + {tok}), maxLocs) ==
              before[tok := MergeEntry(Lookup(bucket0, tok), tok, tm[tok], maxLocs)]
  {
  }

  lemma PartialStep(agg0: Buckets, partial: Buckets, done: set<int>, d: int, cur: Buckets, maxLocs: int)
    requires d in partial && d !in done
    requires cur == MergePartial(agg0, Restrict(partial, done), maxLocs)
    ensures BucketAt(cur, d) == BucketAt(agg0, d)
    ensures MergePartial(agg0, Restrict(partial, done + {d}), maxLocs) ==
              cur[d := MergeBucket(BucketAt(agg0, d), partial[d], maxLocs)]
  {
  }
}
