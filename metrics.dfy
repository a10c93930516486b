/**
 * The label-metric fan-out of a completed training: for every per-tag metric,
 * in order, one `UpdateLabel_UPD` write per stored label whose lowercased
 * `HashIdentifierLabel` equals the tag name. The metric fields come from the
 * tag; every other field is copied from the stored label.
 */
module LabelMetrics {
  import opened Records
  import opened Sanitize
  import opened Labels

  /** `result_from_prediction`: the per-tag list under the endpoint's key names. */
  function TagResults(perTag: seq<TagPerformance>): seq<TagResult> {
    seq(|perTag|, i requires 0 <= i < |perTag| =>
      TagResult(perTag[i].name, perTag[i].precision, perTag[i].recall, perTag[i].averagePrecision))
  }

  /** `x['tagName'] == z['HashIdentifierLabel'].lower()` for a textual label. */
  predicate IsMatch(t: TagResult, l: Label) {
    l.hashLabel.Text? && t.tagName == Lower(l.hashLabel.s)
  }

  /** The parameters `update_trainning_fields_sp` receives for the pair (tag, label). */
  function UpdateOf(t: TagResult, l: Label, user: int): Command {
    UpdateLabel(l.hashLabel, l.hashProject, l.hashModel, l.tagTitle, l.fieldType, l.minPercentage,
                t.ap, l.negative, t.precision, t.recall, l.imageCount, l.colorTag, user)
  }

  /** The writes of a run, and whether it ran to the end (false: it raised after them). */
  datatype Trace = Trace(cmds: seq<Command>, completed: bool)

  /**
   * The inner comprehension for one tag, over the labels in order. A label whose
   * `HashIdentifierLabel` is not text makes `.lower()` raise.
   */
  function RowUpdates(t: TagResult, ls: seq<Label>, user: int): Trace
    decreases |ls|
  {
    if ls == [] then Trace([], true)
    else
      var prev := RowUpdates(t, ls[..|ls| - 1], user);
      var l := ls[|ls| - 1];
      if !prev.completed then prev
      else if !l.hashLabel.Text? then Trace(prev.cmds, false)
      else if IsMatch(t, l) then Trace(prev.cmds + [UpdateOf(t, l, user)], true)
      else prev
  }

  /** The outer loop over the tags, in order. */
  function FanOut(ts: seq<TagResult>, ls: seq<Label>, user: int): Trace
    decreases |ts|
  {
    if ts == [] then Trace([], true)
    else
      var prev := FanOut(ts[..|ts| - 1], ls, user);
      if !prev.completed then prev
      else
        var row := RowUpdates(ts[|ts| - 1], ls, user);
        Trace(prev.cmds + row.cmds, row.completed)
  }

  predicate AllTextual(ls: seq<Label>) {
    forall j :: 0 <= j < |ls| ==> ls[j].hashLabel.Text?
  }

  // ---------------------------------------------------------------------------
  // Running fewer labels or fewer tags gives a prefix of the writes

  lemma {:induction false} RowUpdatesExtends(t: TagResult, ls: seq<Label>, user: int, j: nat)
    requires j <= |ls|
    ensures RowUpdates(t, ls[..j], user).cmds <= RowUpdates(t, ls, user).cmds
    ensures !RowUpdates(t, ls[..j], user).completed ==> RowUpdates(t, ls, user) == RowUpdates(t, ls[..j], user)
    decreases |ls|
  {
    if j == |ls| {
      assert ls[..j] == ls;
    } else {
      var init := ls[..|ls| - 1];
      RowUpdatesExtends(t, init, user, j);
      assert init[..j] == ls[..j];
    }
  }

  lemma {:induction false} FanOutExtends(ts: seq<TagResult>, ls: seq<Label>, user: int, i: nat)
    requires i <= |ts|
    ensures FanOut(ts[..i], ls, user).cmds <= FanOut(ts, ls, user).cmds
    ensures !FanOut(ts[..i], ls, user).completed ==> FanOut(ts, ls, user) == FanOut(ts[..i], ls, user)
    decreases |ts|
  {
    if i == |ts| {
      assert ts[..i] == ts;
    } else {
      var init := ts[..|ts| - 1];
      FanOutExtends(init, ls, user, i);
      assert init[..i] == ts[..i];
    }
  }

  /** The loop's step for one more label, read off the definition. */
  lemma RowUpdatesSnoc(t: TagResult, ls: seq<Label>, user: int, j: nat)
    requires j < |ls|
    ensures var prev := RowUpdates(t, ls[..j], user);
      RowUpdates(t, ls[..j + 1], user)
      == if !prev.completed then prev
         else if !ls[j].hashLabel.Text? then Trace(prev.cmds, false)
         else if IsMatch(t, ls[j]) then Trace(prev.cmds + [UpdateOf(t, ls[j], user)], true)
         else prev
  {
    assert ls[..j + 1][..j] == ls[..j];
  }

  /** The loop's step for one more tag, read off the definition. */
  lemma FanOutSnoc(ts: seq<TagResult>, ls: seq<Label>, user: int, i: nat)
    requires i < |ts|
    requires FanOut(ts[..i], ls, user).completed
    ensures FanOut(ts[..i + 1], ls, user)
      == Trace(FanOut(ts[..i], ls, user).cmds + RowUpdates(ts[i], ls, user).cmds,
               RowUpdates(ts[i], ls, user).completed)
  {
    assert ts[..i + 1][..i] == ts[..i];
  }

  // ---------------------------------------------------------------------------
  // Which writes the fan-out makes

  /** The fan-out writes label updates only: never a publish, never a model update. */
  lemma {:induction false} RowUpdatesOnlyLabels(t: TagResult, ls: seq<Label>, user: int)
    ensures forall k :: 0 <= k < |RowUpdates(t, ls, user).cmds| ==> RowUpdates(t, ls, user).cmds[k].UpdateLabel?
    decreases |ls|
  {
    if ls != [] {
      RowUpdatesOnlyLabels(t, ls[..|ls| - 1], user);
    }
  }

  lemma {:induction false} FanOutOnlyLabels(ts: seq<TagResult>, ls: seq<Label>, user: int)
    ensures forall k :: 0 <= k < |FanOut(ts, ls, user).cmds| ==> FanOut(ts, ls, user).cmds[k].UpdateLabel?
    decreases |ts|
  {
    if ts != [] {
      FanOutOnlyLabels(ts[..|ts| - 1], ls, user);
      RowUpdatesOnlyLabels(ts[|ts| - 1], ls, user);
    }
  }

  /** The index pairs (tag `i`, label `j`) that match, labels in order. */
  function RowPairs(i: nat, t: TagResult, ls: seq<Label>): seq<(nat, nat)>
    decreases |ls|
  {
    if ls == [] then []
    else RowPairs(i, t, ls[..|ls| - 1]) + (if IsMatch(t, ls[|ls| - 1]) then [(i, |ls| - 1)] else [])
  }

  /** All matching (tag, label) index pairs, tag-major. */
  function MatchingPairs(ts: seq<TagResult>, ls: seq<Label>): seq<(nat, nat)>
    decreases |ts|
  {
    if ts == [] then []
    else MatchingPairs(ts[..|ts| - 1], ls) + RowPairs(|ts| - 1, ts[|ts| - 1], ls)
  }

  /** Lexicographic order on index pairs. */
  predicate Before(p: (nat, nat), q: (nat, nat)) {
    p.0 < q.0 || (p.0 == q.0 && p.1 < q.1)
  }

  lemma {:induction false} RowPairsExact(i: nat, t: TagResult, ls: seq<Label>)
    ensures forall k :: 0 <= k < |RowPairs(i, t, ls)| ==>
      RowPairs(i, t, ls)[k].0 == i && RowPairs(i, t, ls)[k].1 < |ls| && IsMatch(t, ls[RowPairs(i, t, ls)[k].1])
    ensures forall j :: 0 <= j < |ls| && IsMatch(t, ls[j]) ==> (i, j) in RowPairs(i, t, ls)
    ensures forall a, b :: 0 <= a < b < |RowPairs(i, t, ls)| ==> RowPairs(i, t, ls)[a].1 < RowPairs(i, t, ls)[b].1
    decreases |ls|
  {
    if ls != [] {
      var init := ls[..|ls| - 1];
      RowPairsExact(i, t, init);
    }
  }

  /**
   * The matching pairs are exactly the pairs whose label matches the tag, each
   * listed once, in strictly increasing (tag, label) order.
   */
  lemma {:induction false} MatchingPairsExact(ts: seq<TagResult>, ls: seq<Label>)
    ensures forall k :: 0 <= k < |MatchingPairs(ts, ls)| ==>
      MatchingPairs(ts, ls)[k].0 < |ts| && MatchingPairs(ts, ls)[k].1 < |ls| &&
      IsMatch(ts[MatchingPairs(ts, ls)[k].0], ls[MatchingPairs(ts, ls)[k].1])
    ensures forall i, j :: 0 <= i < |ts| && 0 <= j < |ls| && IsMatch(ts[i], ls[j]) ==> (i, j) in MatchingPairs(ts, ls)
    ensures forall a, b :: 0 <= a < b < |MatchingPairs(ts, ls)| ==> Before(MatchingPairs(ts, ls)[a], MatchingPairs(ts, ls)[b])
    decreases |ts|
  {
    if ts != [] {
      var n := |ts| - 1;
      var init := ts[..n];
      MatchingPairsExact(init, ls);
      RowPairsExact(n, ts[n], ls);
      var mp: seq<(nat, nat)> := MatchingPairs(init, ls);
      var rp: seq<(nat, nat)> := RowPairs(n, ts[n], ls);
      assert MatchingPairs(ts, ls) == mp + rp;
      forall i, j | 0 <= i < |ts| && 0 <= j < |ls| && IsMatch(ts[i], ls[j])
        ensures (i, j) in mp + rp
      {
        if i < n {
          assert init[i] == ts[i];
          assert (i, j) in mp;
        } else {
          assert (i, j) in rp;
        }
      }
    }
  }

  /**
   * For labels whose hash is text the fan-out runs to the end, and its k-th
   * write is the update for the k-th matching pair.
   */
  lemma {:induction false} RowUpdatesArePairs(i: nat, t: TagResult, ls: seq<Label>, user: int)
    requires AllTextual(ls)
    ensures RowUpdates(t, ls, user).completed
    ensures |RowUpdates(t, ls, user).cmds| == |RowPairs(i, t, ls)|
    ensures forall k :: 0 <= k < |RowPairs(i, t, ls)| ==>
      RowPairs(i, t, ls)[k].1 < |ls| &&
      RowUpdates(t, ls, user).cmds[k] == UpdateOf(t, ls[RowPairs(i, t, ls)[k].1], user)
    decreases |ls|
  {
    RowPairsExact(i, t, ls);
    if ls != [] {
      var init := ls[..|ls| - 1];
      RowUpdatesArePairs(i, t, init, user);
      RowPairsExact(i, t, init);
    }
  }

  lemma {:induction false} FanOutArePairs(ts: seq<TagResult>, ls: seq<Label>, user: int)
    requires AllTextual(ls)
    ensures FanOut(ts, ls, user).completed
    ensures |FanOut(ts, ls, user).cmds| == |MatchingPairs(ts, ls)|
    ensures forall k :: 0 <= k < |MatchingPairs(ts, ls)| ==>
      MatchingPairs(ts, ls)[k].0 < |ts| && MatchingPairs(ts, ls)[k].1 < |ls| &&
      FanOut(ts, ls, user).cmds[k] == UpdateOf(ts[MatchingPairs(ts, ls)[k].0], ls[MatchingPairs(ts, ls)[k].1], user)
    decreases |ts|
  {
    MatchingPairsExact(ts, ls);
    if ts != [] {
      var n := |ts| - 1;
      var init := ts[..n];
      FanOutArePairs(init, ls, user);
      MatchingPairsExact(init, ls);
      RowUpdatesArePairs(n, ts[n], ls, user);
      RowPairsExact(n, ts[n], ls);
      var mp: seq<(nat, nat)> := MatchingPairs(init, ls);
      var rp: seq<(nat, nat)> := RowPairs(n, ts[n], ls);
      var fo := FanOut(init, ls, user).cmds;
      var ru := RowUpdates(ts[n], ls, user).cmds;
      forall k | 0 <= k < |mp + rp|
        ensures (mp + rp)[k].0 < |ts| && (mp + rp)[k].1 < |ls| &&
          (fo + ru)[k] == UpdateOf(ts[(mp + rp)[k].0], ls[(mp + rp)[k].1], user)
      {
        if k < |mp| {
          assert init[mp[k].0] == ts[mp[k].0];
        }
      }
    }
  }

  /** A label that needs `.lower()` but is not text makes the fan-out raise. */
  lemma RowUpdatesRaises(t: TagResult, ls: seq<Label>, user: int, j: nat)
    requires j < |ls| && !ls[j].hashLabel.Text?
    ensures !RowUpdates(t, ls, user).completed
  {
    RowUpdatesSnoc(t, ls, user, j);
    RowUpdatesExtends(t, ls, user, j + 1);
  }

  lemma FanOutRaises(ts: seq<TagResult>, ls: seq<Label>, user: int, j: nat)
    requires |ts| > 0 && j < |ls| && !ls[j].hashLabel.Text?
    ensures !FanOut(ts, ls, user).completed
  {
    RowUpdatesRaises(ts[0], ls, user, j);
    FanOutExtends(ts, ls, user, 1);
    assert ts[..1][..0] == [];
  }

  // ---------------------------------------------------------------------------
  // What the label store holds afterwards

  /** A write addresses the stored label that has the same three hashes. */
  predicate Targets(c: Command, l: Label) {
    c.UpdateLabel? && c.hashLabel == l.hashLabel && c.hashProject == l.hashProject && c.hashModel == l.hashModel
  }

  /** A stored label after one write: `UpdateLabel_UPD` stores its parameters in the row it addresses. */
  function Stored(l: Label, c: Command): Label {
    if Targets(c, l) then
      l.(tagTitle := c.tagTitle, fieldType := c.fieldType, minPercentage := c.minPercentage,
         accuracy := Number(c.accuracy), negative := c.negative, precision := Number(c.precision),
         recall := Number(c.recall), imageCount := c.imageCount, colorTag := c.colorTag,
         userModified := Int(c.userModified))
    else l
  }

  function StoredAll(l: Label, cmds: seq<Command>): Label
    decreases |cmds|
  {
    if cmds == [] then l else Stored(StoredAll(l, cmds[..|cmds| - 1]), cmds[|cmds| - 1])
  }

  /** A label with its metric columns set from a tag and its modifier set to the user. */
  function WithMetrics(l: Label, t: TagResult, user: int): Label {
    l.(accuracy := Number(t.ap), precision := Number(t.precision), recall := Number(t.recall),
       userModified := Int(user))
  }

  /** Accuracy, Precision, Recall and UserModified, by column position. */
  const METRIC_COLUMNS: set<int> := {7, 10, 11, 15}

  /** Setting the metrics changes the four metric columns and no other column. */
  lemma WithMetricsColumns(l: Label, t: TagResult, user: int)
    ensures forall col :: 0 <= col < COLUMNS && col !in METRIC_COLUMNS ==>
      RowOf(WithMetrics(l, t, user))[col] == RowOf(l)[col]
    ensures RowOf(WithMetrics(l, t, user))[7] == Number(t.ap)
    ensures RowOf(WithMetrics(l, t, user))[10] == Number(t.precision)
    ensures RowOf(WithMetrics(l, t, user))[11] == Number(t.recall)
    ensures RowOf(WithMetrics(l, t, user))[15] == Int(user)
  {
  }

  /**
   * The update for (tag, label) addresses that label, and storing it sets the
   * metric fields from the tag and the modifier to the user, while every other
   * field it passes is the label's own.
   */
  lemma UpdateSetsMetricsOnly(t: TagResult, l: Label, user: int)
    ensures Targets(UpdateOf(t, l, user), l)
    ensures Stored(l, UpdateOf(t, l, user)) == WithMetrics(l, t, user)
  {
  }

  /** The last tag, in list order, that matches the label. */
  function LastMatch(ts: seq<TagResult>, l: Label): (r: Option<TagResult>)
    ensures r.None? <==> forall i :: 0 <= i < |ts| ==> !IsMatch(ts[i], l)
    ensures r.Some? ==>
      exists i :: 0 <= i < |ts| && ts[i] == r.value && IsMatch(ts[i], l) &&
        forall k :: i < k < |ts| ==> !IsMatch(ts[k], l)
    decreases |ts|
  {
    if ts == [] then None
    else if IsMatch(ts[|ts| - 1], l) then Some(ts[|ts| - 1])
    else
      var init := ts[..|ts| - 1];
      var r := LastMatch(init, l);
      assert forall i :: 0 <= i < |init| ==> init[i] == ts[i];
      assert r.Some? ==> exists i :: 0 <= i < |ts| && ts[i] == r.value && IsMatch(ts[i], l) &&
                           forall k :: i < k < |ts| ==> !IsMatch(ts[k], l) by {
        if r.Some? {
          var i :| 0 <= i < |init| && init[i] == r.value && IsMatch(init[i], l) &&
                   forall k :: i < k < |init| ==> !IsMatch(init[k], l);
          assert forall k :: i < k < |ts| ==> !IsMatch(ts[k], l);
        }
      }
      r
  }

  /** What a label should hold after the fan-out: the metrics of the last tag that matches it. */
  function Expected(ts: seq<TagResult>, l: Label, user: int): Label {
    match LastMatch(ts, l)
    case None => l
    case Some(t) => WithMetrics(l, t, user)
  }

  predicate SameKey(a: Label, b: Label) {
    a.hashLabel == b.hashLabel && a.hashProject == b.hashProject && a.hashModel == b.hashModel
  }

  /** No two stored labels share the three hashes that key them. */
  predicate DistinctKeys(ls: seq<Label>) {
    forall a, b :: 0 <= a < b < |ls| ==> !SameKey(ls[a], ls[b])
  }

  /** `x` is `l` up to the metric fields. */
  predicate Agrees(x: Label, l: Label) {
    x.(accuracy := l.accuracy, precision := l.precision, recall := l.recall, userModified := l.userModified) == l
  }

  lemma {:induction false} StoredAllAppend(l: Label, a: seq<Command>, b: seq<Command>)
    ensures StoredAll(l, a + b) == StoredAll(StoredAll(l, a), b)
    decreases |b|
  {
    if b == [] {
      assert a + b == a;
    } else {
      StoredAllAppend(l, a, b[..|b| - 1]);
      assert (a + b)[..|a + b| - 1] == a + b[..|b| - 1];
    }
  }

  lemma {:induction false} StoredAllUntargeted(l: Label, cmds: seq<Command>)
    requires forall k :: 0 <= k < |cmds| ==> !Targets(cmds[k], l)
    ensures StoredAll(l, cmds) == l
    decreases |cmds|
  {
    if cmds != [] {
      StoredAllUntargeted(l, cmds[..|cmds| - 1]);
    }
  }

  /** With distinct keys, the writes for the labels before the last one never address the last one. */
  lemma RowMissesLast(t: TagResult, ls: seq<Label>, user: int, x: Label)
    requires AllTextual(ls) && DistinctKeys(ls) && |ls| > 0 && Agrees(x, ls[|ls| - 1])
    ensures var cmds := RowUpdates(t, ls[..|ls| - 1], user).cmds;
      forall k :: 0 <= k < |cmds| ==> !Targets(cmds[k], x)
  {
    var m := |ls| - 1;
    var init := ls[..m];
    RowUpdatesArePairs(0, t, init, user);
    RowPairsExact(0, t, init);
    var cmds := RowUpdates(t, init, user).cmds;
    forall k | 0 <= k < |cmds| ensures !Targets(cmds[k], x) {
      var q := RowPairs(0, t, init)[k].1;
      assert !SameKey(ls[q], ls[m]);
    }
  }

  /** One tag's writes leave label `j` as it was, or set its metrics from the tag if it matches. */
  lemma {:induction false} StoredAfterRow(t: TagResult, ls: seq<Label>, user: int, j: nat, x: Label)
    requires AllTextual(ls) && DistinctKeys(ls) && j < |ls| && Agrees(x, ls[j])
    ensures StoredAll(x, RowUpdates(t, ls, user).cmds) == if IsMatch(t, ls[j]) then WithMetrics(ls[j], t, user) else x
    decreases |ls|
  {
    var m := |ls| - 1;
    var init := ls[..m];
    var prev := RowUpdates(t, init, user);
    RowUpdatesArePairs(0, t, init, user);
    var last := if IsMatch(t, ls[m]) then [UpdateOf(t, ls[m], user)] else [];
    assert RowUpdates(t, ls, user).cmds == prev.cmds + last;
    StoredAllAppend(x, prev.cmds, last);
    if j < m {
      assert init[j] == ls[j];
      StoredAfterRow(t, init, user, j, x);
      assert !SameKey(ls[j], ls[m]);
    } else {
      RowMissesLast(t, ls, user, x);
      StoredAllUntargeted(x, prev.cmds);
    }
  }

  /**
   * After the whole fan-out, with textual, distinctly keyed labels, each stored
   * label holds the metrics of the last tag that matches it, and is unchanged
   * if none does.
   */
  lemma {:induction false} StoredAfterFanOut(ts: seq<TagResult>, ls: seq<Label>, user: int, j: nat)
    requires AllTextual(ls) && DistinctKeys(ls) && j < |ls|
    ensures StoredAll(ls[j], FanOut(ts, ls, user).cmds) == Expected(ts, ls[j], user)
    decreases |ts|
  {
    if ts != [] {
      var n := |ts| - 1;
      var init := ts[..n];
      StoredAfterFanOut(init, ls, user, j);
      FanOutArePairs(init, ls, user);
      StoredAllAppend(ls[j], FanOut(init, ls, user).cmds, RowUpdates(ts[n], ls, user).cmds);
      StoredAfterRow(ts[n], ls, user, j, Expected(init, ls[j], user));
    }
  }

  /** A label that no tag matches receives no write at all, whether or not the fan-out completes. */
  lemma {:induction false} RowUpdatesSkip(t: TagResult, ls: seq<Label>, user: int, l: Label)
    requires !IsMatch(t, l)
    ensures forall k :: 0 <= k < |RowUpdates(t, ls, user).cmds| ==> !Targets(RowUpdates(t, ls, user).cmds[k], l)
    decreases |ls|
  {
    if ls != [] {
      RowUpdatesSkip(t, ls[..|ls| - 1], user, l);
    }
  }

  lemma {:induction false} UnmatchedUntouched(ts: seq<TagResult>, ls: seq<Label>, user: int, l: Label)
    requires forall i :: 0 <= i < |ts| ==> !IsMatch(ts[i], l)
    ensures forall k :: 0 <= k < |FanOut(ts, ls, user).cmds| ==> !Targets(FanOut(ts, ls, user).cmds[k], l)
    ensures StoredAll(l, FanOut(ts, ls, user).cmds) == l
    decreases |ts|
  {
    if ts != [] {
      var n := |ts| - 1;
      UnmatchedUntouched(ts[..n], ls, user, l);
      RowUpdatesSkip(ts[n], ls, user, l);
    }
    StoredAllUntargeted(l, FanOut(ts, ls, user).cmds);
  }
}
