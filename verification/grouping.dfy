/**
 * `getLogQLLabelGroups`: split a filter list by operator class, then group each
 * class by key the way lodash `groupBy` does (one bucket per key, buckets in order of
 * the key's first appearance, members in input order).
 */
module Grouping {
  import opened Filters
  import opened Text

  /** The filters whose operator is in `ops`, in input order (`filters.filter(...)`). */
  function OfClass(fs: seq<Filter>, ops: set<Op>): (r: seq<Filter>)
    ensures forall f :: f in r <==> f in fs && f.op in ops
    ensures forall f :: multiset(r)[f] == if f.op in ops then multiset(fs)[f] else 0
    ensures IsSubsequence(r, fs)
  {
    if fs == [] then []
    else
      var init := OfClass(fs[..|fs| - 1], ops);
      var f := fs[|fs| - 1];
      assert fs == fs[..|fs| - 1] + [f];
      if f.op in ops then
        assert (init + [f])[..|init|] == init;
        init + [f]
      else
        SubsequenceExtend(init, fs[..|fs| - 1], f);
        init
  }

  /** The filters with key `k`, in input order. */
  function WithKey(fs: seq<Filter>, k: string): (r: seq<Filter>)
    ensures forall f :: f in r <==> f in fs && f.key == k
    ensures forall f :: multiset(r)[f] == if f.key == k then multiset(fs)[f] else 0
    ensures IsSubsequence(r, fs)
  {
    if fs == [] then []
    else
      var init := WithKey(fs[..|fs| - 1], k);
      var f := fs[|fs| - 1];
      assert fs == fs[..|fs| - 1] + [f];
      if f.key == k then
        assert (init + [f])[..|init|] == init;
        init + [f]
      else
        SubsequenceExtend(init, fs[..|fs| - 1], f);
        init
  }

  /** Some filter has key `k`. */
  predicate HasKey(fs: seq<Filter>, k: string)
  {
    exists i :: 0 <= i < |fs| && fs[i].key == k
  }

  lemma {:induction false} WithKeyAbsent(fs: seq<Filter>, k: string)
    requires !HasKey(fs, k)
    ensures WithKey(fs, k) == []
  {
    if fs != [] {
      var init := fs[..|fs| - 1];
      WithKeyAbsent(init, k);
      assert fs[|fs| - 1].key != k;
    }
  }

  /** Key `k1` appears in `fs` strictly before key `k2` first appears. */
  ghost predicate SeenBefore(fs: seq<Filter>, k1: string, k2: string)
  {
    exists i :: 0 <= i < |fs| && fs[i].key == k1 && forall j :: 0 <= j <= i ==> fs[j].key != k2
  }

  /** The filters sharing one key within one operator class. */
  datatype Group = Group(key: string, members: seq<Filter>)

  /** Index of the bucket for key `k`, or `|gs|` when there is none yet. */
  function KeyIndex(gs: seq<Group>, k: string): (p: nat)
    ensures p <= |gs|
    ensures p < |gs| ==> gs[p].key == k
    ensures forall q :: 0 <= q < p ==> gs[q].key != k
  {
    if gs == [] then 0
    else if gs[0].key == k then 0
    else 1 + KeyIndex(gs[1..], k)
  }

  /** One step of `groupBy`: push `f` onto its key's bucket, creating the bucket at the
      end when the key is new. */
  function AddToGroups(gs: seq<Group>, f: Filter): seq<Group>
  {
    var p := KeyIndex(gs, f.key);
    if p == |gs| then gs + [Group(f.key, [f])]
    else gs[p := Group(f.key, gs[p].members + [f])]
  }

  /** lodash `groupBy(fs, f => f.key)`, enumerated in insertion order: no filters give
      no buckets, and there are never more buckets than filters (`GroupByKeySpec`
      states what the buckets hold). */
  function GroupByKey(fs: seq<Filter>): (gs: seq<Group>)
    ensures gs == [] <==> fs == []
    ensures |gs| <= |fs|
  {
    if fs == [] then [] else AddToGroups(GroupByKey(fs[..|fs| - 1]), fs[|fs| - 1])
  }

  ghost predicate DistinctKeys(gs: seq<Group>)
  {
    forall i, j :: 0 <= i < j < |gs| ==> gs[i].key != gs[j].key
  }

  /** Some bucket has key `k`. */
  predicate HasBucket(gs: seq<Group>, k: string)
  {
    exists i :: 0 <= i < |gs| && gs[i].key == k
  }

  lemma HasKeySnoc(init: seq<Filter>, f: Filter, k: string)
    ensures HasKey(init + [f], k) <==> HasKey(init, k) || f.key == k
  {
    var fs := init + [f];
    if HasKey(fs, k) && f.key != k {
      var i :| 0 <= i < |fs| && fs[i].key == k;
      assert init[i] == fs[i];
    }
    if HasKey(init, k) {
      var i :| 0 <= i < |init| && init[i].key == k;
      assert fs[i] == init[i];
    }
    if f.key == k {
      assert fs[|init|] == f;
    }
  }

  /** What one step of `groupBy` does to the buckets' keys. */
  lemma AddToGroupsKeys(gs: seq<Group>, f: Filter)
    ensures var r := AddToGroups(gs, f);
      if HasBucket(gs, f.key)
      then |r| == |gs| && forall i :: 0 <= i < |gs| ==> r[i].key == gs[i].key
      else r == gs + [Group(f.key, [f])]
  {
  }

  lemma {:induction false} GroupByKeyKeys(fs: seq<Filter>)
    ensures DistinctKeys(GroupByKey(fs))
    ensures forall k :: HasKey(fs, k) <==> HasBucket(GroupByKey(fs), k)
  {
    if fs != [] {
      var init := fs[..|fs| - 1];
      var f := fs[|fs| - 1];
      assert fs == init + [f];
      GroupByKeyKeys(init);
      AddToGroupsKeys(GroupByKey(init), f);
      assert GroupByKey(fs) == AddToGroups(GroupByKey(init), f);
      forall k
        ensures HasKey(fs, k) <==> HasBucket(GroupByKey(fs), k)
      {
        HasKeySnoc(init, f, k);
        AddToGroupsHasKey(GroupByKey(init), f, k);
      }
    }
  }

  /** After one step of `groupBy`, a key has a bucket exactly when it had one before
      or is the new filter's key. */
  lemma AddToGroupsHasKey(g0: seq<Group>, f: Filter, k: string)
    ensures HasBucket(AddToGroups(g0, f), k) <==> HasBucket(g0, k) || f.key == k
  {
    var gs := AddToGroups(g0, f);
    AddToGroupsKeys(g0, f);
    if exists i :: 0 <= i < |g0| && g0[i].key == f.key {
      if exists i :: 0 <= i < |g0| && g0[i].key == k {
        var i :| 0 <= i < |g0| && g0[i].key == k;
        assert gs[i].key == k;
      }
      if exists i :: 0 <= i < |gs| && gs[i].key == k {
        var i :| 0 <= i < |gs| && gs[i].key == k;
        assert g0[i].key == k;
      }
      if f.key == k {
        var i :| 0 <= i < |g0| && g0[i].key == f.key;
        assert gs[i].key == k;
      }
    } else {
      if exists i :: 0 <= i < |g0| && g0[i].key == k {
        var i :| 0 <= i < |g0| && g0[i].key == k;
        assert gs[i].key == k;
      }
      if f.key == k {
        assert gs[|g0|].key == k;
      }
    }
  }

  /** No key has two buckets. */
  lemma GroupByKeyDistinct(fs: seq<Filter>)
    ensures DistinctKeys(GroupByKey(fs))
  {
    GroupByKeyKeys(fs);
  }

  lemma {:induction false} GroupByKeyMembers(fs: seq<Filter>)
    ensures forall i :: 0 <= i < |GroupByKey(fs)| ==>
              GroupByKey(fs)[i].members == WithKey(fs, GroupByKey(fs)[i].key) &&
              GroupByKey(fs)[i].members != []
  {
    if fs != [] {
      var init := fs[..|fs| - 1];
      var f := fs[|fs| - 1];
      assert fs == init + [f];
      GroupByKeyMembers(init);
      GroupByKeyKeys(init);
      var g0 := GroupByKey(init);
      var gs := GroupByKey(fs);
      var p := KeyIndex(g0, f.key);
      if p == |g0| {
        assert !HasKey(init, f.key);
        WithKeyAbsent(init, f.key);
      }
      forall i | 0 <= i < |gs|
        ensures gs[i].members == WithKey(fs, gs[i].key) && gs[i].members != []
      {
        WithKeySnoc(init, f, gs[i].key);
      }
    }
  }

  /** The filters with key `k` after one more filter. */
  lemma WithKeySnoc(init: seq<Filter>, f: Filter, k: string)
    ensures WithKey(init + [f], k) == WithKey(init, k) + (if f.key == k then [f] else [])
  {
    assert (init + [f])[..|init|] == init;
    if f.key != k {
      assert WithKey(init, k) + [] == WithKey(init, k);
    }
  }

  lemma {:induction false} GroupByKeyOrder(fs: seq<Filter>)
    ensures forall i, j :: 0 <= i < j < |GroupByKey(fs)| ==>
              SeenBefore(fs, GroupByKey(fs)[i].key, GroupByKey(fs)[j].key)
  {
    if fs != [] {
      var init := fs[..|fs| - 1];
      var f := fs[|fs| - 1];
      assert fs == init + [f];
      GroupByKeyOrder(init);
      GroupByKeyKeys(init);
      var g0 := GroupByKey(init);
      var gs := GroupByKey(fs);
      AddToGroupsKeys(g0, f);
      forall k1, k2 | SeenBefore(init, k1, k2)
        ensures SeenBefore(fs, k1, k2)
      {
        var i :| 0 <= i < |init| && init[i].key == k1 && forall j :: 0 <= j <= i ==> init[j].key != k2;
        assert fs[i] == init[i];
        assert forall j :: 0 <= j <= i ==> fs[j] == init[j];
      }
      if !(exists i :: 0 <= i < |g0| && g0[i].key == f.key) {
        assert !HasKey(init, f.key);
        forall i | 0 <= i < |g0|
          ensures SeenBefore(fs, g0[i].key, f.key)
        {
          assert HasKey(init, g0[i].key);
          var w :| 0 <= w < |init| && init[w].key == g0[i].key;
          assert fs[w] == init[w];
          forall j | 0 <= j <= w ensures fs[j].key != f.key {
            assert fs[j] == init[j];
          }
        }
      }
    }
  }

  /** The grouping is exactly "one bucket per key": keys are distinct, every key of
      the input has a bucket and no other key does, each bucket holds all filters with
      its key in input order (so it is never empty), and buckets come in order of
      their key's first appearance. */
  lemma GroupByKeySpec(fs: seq<Filter>)
    ensures DistinctKeys(GroupByKey(fs))
    ensures forall i :: 0 <= i < |GroupByKey(fs)| ==>
              GroupByKey(fs)[i].members == WithKey(fs, GroupByKey(fs)[i].key) &&
              GroupByKey(fs)[i].members != []
    ensures forall k :: HasKey(fs, k) <==> HasBucket(GroupByKey(fs), k)
    ensures forall i, j :: 0 <= i < j < |GroupByKey(fs)| ==>
              SeenBefore(fs, GroupByKey(fs)[i].key, GroupByKey(fs)[j].key)
  {
    GroupByKeyKeys(fs);
    GroupByKeyMembers(fs);
    GroupByKeyOrder(fs);
  }

  /** Buckets with distinct keys, none empty, each holding only filters of class `ops`
      that carry the bucket's key. */
  ghost predicate ClassBuckets(gs: seq<Group>, ops: set<Op>)
  {
    DistinctKeys(gs) &&
    forall i :: 0 <= i < |gs| ==>
      gs[i].members != [] && forall f :: f in gs[i].members ==> f.op in ops && f.key == gs[i].key
  }

  lemma GroupByKeyClass(fs: seq<Filter>, ops: set<Op>)
    ensures ClassBuckets(GroupByKey(OfClass(fs, ops)), ops)
  {
    GroupByKeySpec(OfClass(fs, ops));
  }

  /** `getLogQLLabelGroups`: the buckets of the inclusive filters and those of the
      exclusive filters, each without a repeated key, no bucket empty, and every bucket
      holding only filters of its class and key. */
  function LabelGroups(env: Env, fs: seq<Filter>): (groups: (seq<Group>, seq<Group>))
    ensures ClassBuckets(groups.0, env.inclusive) && ClassBuckets(groups.1, env.exclusive)
  {
    GroupByKeyClass(fs, env.inclusive);
    GroupByKeyClass(fs, env.exclusive);
    (GroupByKey(OfClass(fs, env.inclusive)), GroupByKey(OfClass(fs, env.exclusive)))
  }

  /** Every inclusive filter lands in the positive bucket of its key, every exclusive
      filter in the negative bucket of its key, each bucket in input order. */
  lemma LabelGroupsSpec(env: Env, fs: seq<Filter>)
    ensures var pos := LabelGroups(env, fs).0;
      (forall i :: 0 <= i < |pos| ==> pos[i].members == WithKey(OfClass(fs, env.inclusive), pos[i].key)) &&
      (forall f :: f in fs && f.op in env.inclusive ==> exists i :: 0 <= i < |pos| && f in pos[i].members)
    ensures var neg := LabelGroups(env, fs).1;
      (forall i :: 0 <= i < |neg| ==> neg[i].members == WithKey(OfClass(fs, env.exclusive), neg[i].key)) &&
      (forall f :: f in fs && f.op in env.exclusive ==> exists i :: 0 <= i < |neg| && f in neg[i].members)
  {
    GroupByKeyCovers(OfClass(fs, env.inclusive));
    GroupByKeyCovers(OfClass(fs, env.exclusive));
  }

  /** Every filter is in the bucket of its key. */
  lemma GroupByKeyCovers(fs: seq<Filter>)
    ensures forall i :: 0 <= i < |GroupByKey(fs)| ==> GroupByKey(fs)[i].members == WithKey(fs, GroupByKey(fs)[i].key)
    ensures forall f :: f in fs ==> exists i :: 0 <= i < |GroupByKey(fs)| && f in GroupByKey(fs)[i].members
  {
    GroupByKeySpec(fs);
    forall f | f in fs
      ensures exists i :: 0 <= i < |GroupByKey(fs)| && f in GroupByKey(fs)[i].members
    {
      var w :| 0 <= w < |fs| && fs[w] == f;
      assert HasKey(fs, f.key);
      var i :| 0 <= i < |GroupByKey(fs)| && GroupByKey(fs)[i].key == f.key;
      assert f in WithKey(fs, f.key);
    }
  }
}
