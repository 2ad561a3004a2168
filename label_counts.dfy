/**
 The label-frequency part of augmentVideo (augment_videos.py): count how often
 each label name occurs across the annotation items, sort the names by count
 and keep those seen at most Threshold times.
 */
module LabelCounts {
  import opened Wrappers
  import opened Annotations

  /** The inclusive bound below which a label name is augmented. */
  const Threshold: int := 2000

  /** Every item's action code has a name in the label map. */
  predicate Covered(s: seq<Entry>, labels: map<int, string>) {
    forall i :: 0 <= i < |s| ==> s[i].action in labels
  }

  /** The label names the items resolve to. */
  function Names(s: seq<Entry>, labels: map<int, string>): set<string>
    requires Covered(s, labels)
  {
    set i | 0 <= i < |s| :: labels[s[i].action]
  }

  lemma NamesSnoc(s: seq<Entry>, labels: map<int, string>)
    requires s != [] && Covered(s, labels)
    ensures Covered(s[..|s| - 1], labels)
    ensures Names(s, labels) == Names(s[..|s| - 1], labels) + {labels[s[|s| - 1].action]}
  {
    var p := s[..|s| - 1];
    assert forall i :: 0 <= i < |p| ==> p[i] == s[i];
    forall n | n in Names(s, labels) ensures n in Names(p, labels) + {labels[s[|s| - 1].action]} {
      var i :| 0 <= i < |s| && labels[s[i].action] == n;
      if i < |p| { assert labels[p[i].action] == n; }
    }
  }

  /** How many items resolve to the name n. */
  function Occurrences(s: seq<Entry>, labels: map<int, string>, n: string): (c: nat)
    requires Covered(s, labels)
    ensures c <= |s|
    ensures c > 0 <==> n in Names(s, labels)
  {
    if s == [] then 0
    else
      NamesSnoc(s, labels);
      Occurrences(s[..|s| - 1], labels, n) + (if labels[s[|s| - 1].action] == n then 1 else 0)
  }

  /** The keys of the dictionary m whose code resolves to the name n. */
  ghost function KeysLabelled(m: map<string, int>, labels: map<int, string>, n: string): set<string> {
    set k | k in m && m[k] in labels && labels[m[k]] == n
  }

  /** Counting items is counting dictionary keys, since a dictionary never repeats a key. */
  lemma {:induction false} OccurrencesCountKeys(s: seq<Entry>, labels: map<int, string>, n: string)
    requires Covered(s, labels) && DistinctIds(s)
    ensures Occurrences(s, labels, n) == |KeysLabelled(AsMap(s), labels, n)|
  {
    if s != [] {
      var p, e := s[..|s| - 1], s[|s| - 1];
      assert forall i :: 0 <= i < |p| ==> p[i] == s[i];
      assert Covered(p, labels) && DistinctIds(p);
      OccurrencesCountKeys(p, labels, n);
      assert e.videoId !in AsMap(p);
      var before := KeysLabelled(AsMap(p), labels, n);
      var after := KeysLabelled(AsMap(s), labels, n);
      if labels[e.action] == n {
        assert after == before + {e.videoId};
      } else {
        assert after == before;
      }
    }
  }

  /** The label names in the order the counting loop first meets them. */
  function FirstSeen(s: seq<Entry>, labels: map<int, string>): (order: seq<string>)
    requires Covered(s, labels)
    ensures forall n :: n in order <==> n in Names(s, labels)
    ensures forall i, j :: 0 <= i < j < |order| ==> order[i] != order[j]
  {
    if s == [] then []
    else
      NamesSnoc(s, labels);
      var p := FirstSeen(s[..|s| - 1], labels);
      var n := labels[s[|s| - 1].action];
      if n in p then p else p + [n]
  }

  /**
   The names are listed in order of first occurrence: every item carrying a
   later name of the list comes after some item carrying an earlier one.
   */
  lemma {:induction false} FirstSeenOrder(s: seq<Entry>, labels: map<int, string>, i: nat, j: nat, k: nat)
    requires Covered(s, labels)
    requires i < j < |FirstSeen(s, labels)| && k < |s|
    requires labels[s[k].action] == FirstSeen(s, labels)[j]
    ensures exists k0 :: 0 <= k0 < k && labels[s[k0].action] == FirstSeen(s, labels)[i]
  {
    var p, e := s[..|s| - 1], s[|s| - 1];
    NamesSnoc(s, labels);
    var before, n := FirstSeen(p, labels), labels[e.action];
    var order := FirstSeen(s, labels);
    assert forall m :: 0 <= m < |p| ==> p[m] == s[m];
    assert forall m :: 0 <= m < |before| ==> order[m] == before[m];
    if k < |p| {
      if j < |before| {
        FirstSeenOrder(p, labels, i, j, k);
        var k0 :| 0 <= k0 < k && labels[p[k0].action] == before[i];
        assert labels[s[k0].action] == order[i];
      }
    } else {
      assert i < |before|;
      assert before[i] in Names(p, labels);
      var k0 :| 0 <= k0 < |p| && labels[p[k0].action] == before[i];
      assert labels[s[k0].action] == order[i];
    }
  }

  /** The sum of the values of a map. */
  ghost function Total(m: map<string, int>): int {
    TotalOver(m, m.Keys)
  }

  ghost function TotalOver(m: map<string, int>, ks: set<string>): int
    requires ks <= m.Keys
    decreases ks
  {
    if ks == {} then 0 else var k :| k in ks; m[k] + TotalOver(m, ks - {k})
  }

  lemma {:induction false} TotalOverRemove(m: map<string, int>, ks: set<string>, k: string)
    requires ks <= m.Keys && k in ks
    ensures TotalOver(m, ks) == m[k] + TotalOver(m, ks - {k})
    decreases ks
  {
    var j :| j in ks && TotalOver(m, ks) == m[j] + TotalOver(m, ks - {j});
    if j != k {
      TotalOverRemove(m, ks - {j}, k);
      TotalOverRemove(m, ks - {k}, j);
      assert ks - {j} - {k} == ks - {k} - {j};
    }
  }

  lemma {:induction false} TotalOverAgree(m1: map<string, int>, m2: map<string, int>, ks: set<string>)
    requires ks <= m1.Keys && ks <= m2.Keys
    requires forall k :: k in ks ==> m1[k] == m2[k]
    ensures TotalOver(m1, ks) == TotalOver(m2, ks)
    decreases ks
  {
    if ks != {} {
      var k :| k in ks;
      TotalOverRemove(m1, ks, k);
      TotalOverRemove(m2, ks, k);
      TotalOverAgree(m1, m2, ks - {k});
    }
  }

  /** Setting one entry changes the sum by the difference. */
  lemma TotalUpdate(m: map<string, int>, k: string, v: int)
    ensures Total(m[k := v]) == Total(m) - (if k in m then m[k] else 0) + v
  {
    var m' := m[k := v];
    TotalOverRemove(m', m'.Keys, k);
    assert m'.Keys - {k} == m.Keys - {k};
    TotalOverAgree(m', m, m.Keys - {k});
    if k in m {
      TotalOverRemove(m, m.Keys, k);
    } else {
      assert m.Keys - {k} == m.Keys;
    }
  }

  /** A Python dictionary from label name to count: the counts and the insertion order of the names. */
  datatype Tally = Tally(counts: map<string, int>, order: seq<string>)

  /** The table the counting loop has built after the items s. */
  function TallyOf(s: seq<Entry>, labels: map<int, string>): (t: Tally)
    requires Covered(s, labels)
    ensures forall n :: n in t.order <==> n in t.counts
    ensures forall n :: n in t.counts ==> t.counts[n] >= 1
  {
    if s == [] then Tally(map[], [])
    else
      var t := TallyOf(s[..|s| - 1], labels);
      var n := labels[s[|s| - 1].action];
      if n in t.counts then Tally(t.counts[n := t.counts[n] + 1], t.order)
      else Tally(t.counts[n := 1], t.order + [n])
  }

  /** The table has an entry for exactly the names that occur, counting the items with that name. */
  lemma {:induction false} TallyOfCounts(s: seq<Entry>, labels: map<int, string>)
    requires Covered(s, labels)
    ensures TallyOf(s, labels).counts.Keys == Names(s, labels)
    ensures forall n :: n in TallyOf(s, labels).counts ==>
      TallyOf(s, labels).counts[n] == Occurrences(s, labels, n) >= 1
  {
    if s != [] {
      NamesSnoc(s, labels);
      TallyOfCounts(s[..|s| - 1], labels);
    }
  }

  /** The counts sum to the number of items. */
  lemma {:induction false} TallyOfTotal(s: seq<Entry>, labels: map<int, string>)
    requires Covered(s, labels)
    ensures Total(TallyOf(s, labels).counts) == |s|
  {
    if s != [] {
      NamesSnoc(s, labels);
      TallyOfTotal(s[..|s| - 1], labels);
      var t := TallyOf(s[..|s| - 1], labels);
      var n := labels[s[|s| - 1].action];
      TotalUpdate(t.counts, n, if n in t.counts then t.counts[n] + 1 else 1);
    }
  }

  /** The table's keys are in order of first occurrence. */
  lemma {:induction false} TallyOfOrder(s: seq<Entry>, labels: map<int, string>)
    requires Covered(s, labels)
    ensures TallyOf(s, labels).order == FirstSeen(s, labels)
  {
    if s != [] {
      NamesSnoc(s, labels);
      TallyOfCounts(s[..|s| - 1], labels);
      TallyOfOrder(s[..|s| - 1], labels);
    }
  }

  /**
   The counting loop: count_dict[name] is 1 on the first item with that name
   and is incremented on each later one. An action code without a name aborts
   the loop at the first such item.
   */
  method CountLabels(annotation: seq<Entry>, labels: map<int, string>) returns (r: Result<Tally, Error>)
    ensures r.Err? <==> !Covered(annotation, labels)
    ensures r.Err? ==>
      exists i :: 0 <= i < |annotation| && annotation[i].action !in labels &&
        r.error == UnknownAction(annotation[i].action) && Covered(annotation[..i], labels)
    ensures r.Ok? ==> r.value.counts.Keys == Names(annotation, labels)
    ensures r.Ok? ==> forall n :: n in r.value.counts ==>
      r.value.counts[n] == Occurrences(annotation, labels, n) >= 1
    ensures r.Ok? ==> Total(r.value.counts) == |annotation|
    ensures r.Ok? ==> r.value.order == FirstSeen(annotation, labels)
  {
    var counts: map<string, int> := map[];
    var order: seq<string> := [];
    var i := 0;
    while i < |annotation|
      invariant 0 <= i <= |annotation|
      invariant Covered(annotation[..i], labels)
      invariant Tally(counts, order) == TallyOf(annotation[..i], labels)
    {
      var code := annotation[i].action;
      if code !in labels {
        return Err(UnknownAction(code));
      }
      var name := labels[code];
      assert annotation[..i + 1][..i] == annotation[..i];
      if name in counts {
        counts := counts[name := counts[name] + 1];
      } else {
        counts := counts[name := 1];
        order := order + [name];
      }
      i := i + 1;
    }
    assert annotation[..i] == annotation;
    TallyOfCounts(annotation, labels);
    TallyOfTotal(annotation, labels);
    TallyOfOrder(annotation, labels);
    r := Ok(Tally(counts, order));
  }

  /** count_dict.items() in insertion order. */
  function Items(order: seq<string>, counts: map<string, int>): (items: seq<(string, int)>)
    requires forall i :: 0 <= i < |order| ==> order[i] in counts
    ensures |items| == |order|
    ensures forall i :: 0 <= i < |items| ==> items[i] == (order[i], counts[order[i]])
  {
    if order == [] then [] else [(order[0], counts[order[0]])] + Items(order[1..], counts)
  }

  predicate SortedByCount(s: seq<(string, int)>) {
    forall i, j :: 0 <= i < j < |s| ==> s[i].1 <= s[j].1
  }

  /** Put x after every item whose count is at most x's. */
  function InsertByCount(x: (string, int), s: seq<(string, int)>): (r: seq<(string, int)>)
    requires SortedByCount(s)
    ensures SortedByCount(r)
    ensures multiset(r) == multiset(s) + multiset{x}
    ensures |r| == |s| + 1
    ensures r[0] == x || (s != [] && r[0] == s[0])
  {
    if s == [] || x.1 < s[0].1 then [x] + s
    else
      assert s == [s[0]] + s[1..];
      [s[0]] + InsertByCount(x, s[1..])
  }

  /** sorted(items, key=count): the items in ascending order of count. */
  function SortByCount(s: seq<(string, int)>): (r: seq<(string, int)>)
    ensures |r| == |s|
    ensures SortedByCount(r)
    ensures multiset(r) == multiset(s)
  {
    if s == [] then []
    else
      assert s == s[..|s| - 1] + [s[|s| - 1]];
      InsertByCount(s[|s| - 1], SortByCount(s[..|s| - 1]))
  }

  /** The names of the items whose count is at most threshold, in item order. */
  function KeepAtMost(s: seq<(string, int)>, threshold: int): (names: seq<string>)
    ensures |names| <= |s|
    ensures forall n :: n in names <==> exists i :: 0 <= i < |s| && s[i].0 == n && s[i].1 <= threshold
  {
    if s == [] then []
    else
      var rest := KeepAtMost(s[1..], threshold);
      assert forall i :: 1 <= i < |s| ==> s[i] == s[1..][i - 1];
      if s[0].1 <= threshold then [s[0].0] + rest else rest
  }

  /** filtered_actions: the names of the count-sorted table whose count is at most threshold. */
  function FilteredActions(t: Tally, threshold: int): (names: seq<string>)
    requires forall i :: 0 <= i < |t.order| ==> t.order[i] in t.counts
    ensures |names| <= |t.order|
  {
    KeepAtMost(SortByCount(Items(t.order, t.counts)), threshold)
  }

  /** Filtering keeps the same names from any two lists with the same items. */
  lemma KeepAtMostSameItems(a: seq<(string, int)>, b: seq<(string, int)>, threshold: int)
    requires multiset(a) == multiset(b)
    ensures forall n :: n in KeepAtMost(a, threshold) <==> n in KeepAtMost(b, threshold)
  {
    forall n | n in KeepAtMost(a, threshold) ensures n in KeepAtMost(b, threshold) {
      var i :| 0 <= i < |a| && a[i].0 == n && a[i].1 <= threshold;
      assert a[i] in multiset(b);
      var j :| 0 <= j < |b| && b[j] == a[i];
    }
    forall n | n in KeepAtMost(b, threshold) ensures n in KeepAtMost(a, threshold) {
      var j :| 0 <= j < |b| && b[j].0 == n && b[j].1 <= threshold;
      assert b[j] in multiset(a);
      var i :| 0 <= i < |a| && a[i] == b[j];
    }
  }

  /** A name is kept exactly when it was counted at most threshold times; sorting changes no membership. */
  lemma SelectionIff(t: Tally, threshold: int)
    requires forall n :: n in t.order <==> n in t.counts
    ensures forall n :: n in FilteredActions(t, threshold) <==> n in t.counts && t.counts[n] <= threshold
  {
    var items := Items(t.order, t.counts);
    KeepAtMostSameItems(SortByCount(items), items, threshold);
    forall n ensures n in KeepAtMost(items, threshold) <==> n in t.counts && t.counts[n] <= threshold {
      if n in KeepAtMost(items, threshold) {
        var i :| 0 <= i < |items| && items[i].0 == n && items[i].1 <= threshold;
        assert items[i] == (t.order[i], t.counts[t.order[i]]);
      }
      if n in t.counts && t.counts[n] <= threshold {
        var j :| 0 <= j < |t.order| && t.order[j] == n;
        assert items[j].0 == n;
      }
    }
  }

  /** The label names the driver augments: those seen at most threshold times. */
  function SelectedNames(s: seq<Entry>, labels: map<int, string>, threshold: int): set<string>
    requires Covered(s, labels)
  {
    set n | n in Names(s, labels) && Occurrences(s, labels, n) <= threshold
  }

  /** The counting loop followed by the sort and the filter selects exactly SelectedNames. */
  lemma {:induction false} CountedSelection(annotation: seq<Entry>, labels: map<int, string>, t: Tally, threshold: int)
    requires Covered(annotation, labels)
    requires t.counts.Keys == Names(annotation, labels)
    requires forall n :: n in t.counts ==> t.counts[n] == Occurrences(annotation, labels, n)
    requires t.order == FirstSeen(annotation, labels)
    ensures forall i :: 0 <= i < |t.order| ==> t.order[i] in t.counts
    ensures (set n | n in FilteredActions(t, threshold)) == SelectedNames(annotation, labels, threshold)
  {
    SelectionIff(t, threshold);
  }
}
