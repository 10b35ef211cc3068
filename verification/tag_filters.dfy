/**
 * `joinTagFilters`: the label filters with each key's values merged into one filter,
 * as the label-values request sends them.
 */
module TagFilters {
  import opened Filters
  import opened Text
  import opened Grouping

  /** One merged filter per bucket, carrying the bucket's key and no value labels: a
      single filter keeps its value and operator; otherwise the filter gets `op` and the
      values joined by `|`, which split back on `|` into the bucket's values, in input
      order, as long as the bucket is not empty and no value contains `|`. */
  function JoinGroup(g: Group, op: Op): (r: Filter)
    ensures r.key == g.key && r.valueLabels == []
    ensures |g.members| == 1 ==> r.op == g.members[0].op && r.value == g.members[0].value
    ensures |g.members| != 1 ==> r.op == op
    ensures g.members != [] && (forall i :: 0 <= i < |g.members| ==> '|' !in g.members[i].value) ==>
      Split(r.value, '|') == Values(g.members)
  {
    var vs := Values(g.members);
    if |g.members| == 1 then
      var r := Filter(g.key, g.members[0].op, g.members[0].value, []);
      assert vs == [r.value];
      if '|' !in r.value then
        SplitNoSeparator(r.value, '|');
        r
      else r
    else
      var r := Filter(g.key, op, Join(vs, "|"), []);
      if vs != [] && forall i :: 0 <= i < |vs| ==> '|' !in vs[i] then
        SplitJoin(vs, '|');
        r
      else r
  }

  function JoinGroups(gs: seq<Group>, op: Op): (r: seq<Filter>)
    ensures |r| == |gs|
    ensures forall i :: 0 <= i < |gs| ==> r[i] == JoinGroup(gs[i], op)
  {
    seq(|gs|, i requires 0 <= i < |gs| => JoinGroup(gs[i], op))
  }

  /** The filters `joinTagFilters` returns: the merged positive buckets, then the
      merged negative buckets. */
  function JoinedTagFilters(env: Env, fs: seq<Filter>): seq<Filter>
  {
    JoinGroups(GroupByKey(OfClass(fs, env.inclusive)), RegexEqual)
      + JoinGroups(GroupByKey(OfClass(fs, env.exclusive)), RegexNotEqual)
  }

  /** One `for (const key in groups)` loop of `joinTagFilters`: push the merged filter
      of every bucket, in bucket order. */
  method PushJoined(filters: seq<Filter>, groups: seq<Group>, op: Op) returns (r: seq<Filter>)
    ensures r == filters + JoinGroups(groups, op)
  {
    r := filters;
    for i := 0 to |groups|
      invariant |r| == |filters| + i
      invariant r[..|filters|] == filters
      invariant forall k :: 0 <= k < i ==> r[|filters| + k] == JoinGroup(groups[k], op)
    {
      var g := groups[i];
      var values := Values(g.members);
      if |values| == 1 {
        r := r + [Filter(g.key, g.members[0].op, g.members[0].value, [])];
      } else {
        r := r + [Filter(g.key, op, Join(values, "|"), [])];
      }
    }
  }

  /** `joinTagFilters`. */
  method JoinTagFilters(env: Env, fs: seq<Filter>) returns (filters: seq<Filter>)
    ensures filters == JoinedTagFilters(env, fs)
  {
    var groups := LabelGroups(env, fs);
    filters := PushJoined([], groups.0, RegexEqual);
    filters := PushJoined(filters, groups.1, RegexNotEqual);
  }

  /** Merging buckets: one filter per bucket, carrying the bucket's key, so buckets
      with distinct keys give filters with distinct keys. */
  lemma JoinGroupsKeys(gs: seq<Group>, op: Op)
    ensures forall i :: 0 <= i < |gs| ==> JoinGroups(gs, op)[i].key == gs[i].key
    ensures DistinctKeys(gs) ==>
      forall i, j :: 0 <= i < j < |gs| ==> JoinGroups(gs, op)[i].key != JoinGroups(gs, op)[j].key
  {
  }

  /** `r` is the merge of the positive buckets `pos` followed by the merge of the
      negative buckets `neg`: one filter per bucket, in bucket order, each carrying its
      bucket's key, and no key twice within either part. */
  ghost predicate JoinedShape(r: seq<Filter>, pos: seq<Group>, neg: seq<Group>)
  {
    |r| == |pos| + |neg| &&
    (forall i :: 0 <= i < |pos| ==> r[i] == JoinGroup(pos[i], RegexEqual) && r[i].key == pos[i].key) &&
    (forall i :: |pos| <= i < |r| ==>
      r[i] == JoinGroup(neg[i - |pos|], RegexNotEqual) && r[i].key == neg[i - |pos|].key) &&
    (forall i, j :: 0 <= i < j < |pos| ==> r[i].key != r[j].key) &&
    (forall i, j :: |pos| <= i < j < |r| ==> r[i].key != r[j].key)
  }

  /** Merging two lists of buckets, each without a repeated key. */
  lemma JoinedParts(pos: seq<Group>, neg: seq<Group>)
    requires DistinctKeys(pos) && DistinctKeys(neg)
    ensures JoinedShape(JoinGroups(pos, RegexEqual) + JoinGroups(neg, RegexNotEqual), pos, neg)
  {
    var a := JoinGroups(pos, RegexEqual);
    var b := JoinGroups(neg, RegexNotEqual);
    JoinGroupsKeys(pos, RegexEqual);
    JoinGroupsKeys(neg, RegexNotEqual);
    var r := a + b;
    assert forall i :: |pos| <= i < |r| ==> r[i] == b[i - |pos|];
    forall i, j | |pos| <= i < j < |r| ensures r[i].key != r[j].key {
      assert r[i] == b[i - |pos|] && r[j] == b[j - |pos|];
    }
  }

  /** The joined list is one filter per distinct inclusive key and then one per
      distinct exclusive key, each in order of first appearance, each the merge of its
      key's bucket, and no key twice within either part. */
  lemma JoinedTagFiltersSpec(env: Env, fs: seq<Filter>)
    ensures JoinedShape(JoinedTagFilters(env, fs),
      GroupByKey(OfClass(fs, env.inclusive)), GroupByKey(OfClass(fs, env.exclusive)))
  {
    GroupByKeyDistinct(OfClass(fs, env.inclusive));
    GroupByKeyDistinct(OfClass(fs, env.exclusive));
    JoinedParts(GroupByKey(OfClass(fs, env.inclusive)), GroupByKey(OfClass(fs, env.exclusive)));
  }
}
