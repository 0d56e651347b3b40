/**
 * Grouping a sequence by a string label into an insertion-ordered record of
 * buckets: the history page creates a label's bucket the first time it meets
 * the label and pushes each record onto it. The dashboard's category totals
 * fill their record in the same first-seen order, adding amounts instead of
 * pushing records.
 */
module Grouping {
  import opened Wrappers

  /** One bucket of the record: its key and the items pushed under it. */
  datatype Group<T> = Group(name: string, items: seq<T>)

  /** No value occurs twice. */
  ghost predicate Distinct(s: seq<string>) {
    forall i, j :: 0 <= i < j < |s| ==> s[i] != s[j]
  }

  /** The label of every item, in item order. */
  function Labels<T>(items: seq<T>, key: T -> string): (ls: seq<string>)
    ensures |ls| == |items|
    ensures forall i :: 0 <= i < |items| ==> ls[i] == key(items[i])
  {
    seq(|items|, i requires 0 <= i < |items| => key(items[i]))
  }

  /** Each distinct value of `s` once, in the order of its first occurrence. */
  function FirstOccurrences(s: seq<string>): (r: seq<string>)
    ensures forall x :: x in r <==> x in s
    ensures Distinct(r)
    ensures |r| <= |s|
    decreases |s|
  {
    if s == [] then []
    else
      var init := FirstOccurrences(s[..|s| - 1]);
      var x := s[|s| - 1];
      assert s == s[..|s| - 1] + [x];
      if x in init then init else init + [x]
  }

  /** Position of the first occurrence of `x` in `s`. */
  function FirstIndex(s: seq<string>, x: string): (i: nat)
    requires x in s
    ensures i < |s| && s[i] == x
    ensures forall k :: 0 <= k < i ==> s[k] != x
  {
    if s[0] == x then 0 else 1 + FirstIndex(s[1..], x)
  }

  /** First occurrences come out in the order in which they first occur. */
  lemma {:induction false} FirstOccurrencesOrdered(s: seq<string>, i: nat, j: nat)
    requires i < j < |FirstOccurrences(s)|
    ensures FirstIndex(s, FirstOccurrences(s)[i]) < FirstIndex(s, FirstOccurrences(s)[j])
    decreases |s|
  {
    var init := s[..|s| - 1];
    var x := s[|s| - 1];
    var r := FirstOccurrences(s);
    var r0 := FirstOccurrences(init);
    assert s == init + [x];
    FirstIndexExtend(init, x, r[i]);
    if j < |r0| {
      FirstIndexExtend(init, x, r[j]);
      FirstOccurrencesOrdered(init, i, j);
    } else {
      assert r[j] == x && x !in init;
      assert r[i] in init;
    }
  }

  /** Appending an element does not move the first occurrence of a value already present. */
  lemma FirstIndexExtend(s: seq<string>, x: string, y: string)
    requires y in s
    ensures FirstIndex(s + [x], y) == FirstIndex(s, y)
  {
    var i := FirstIndex(s, y);
    var k := FirstIndex(s + [x], y);
    assert (s + [x])[i] == y;
    assert k <= i;
    assert s[k] == (s + [x])[k];
  }

  /** The items labelled `name`, in item order. */
  function Select<T>(items: seq<T>, key: T -> string, name: string): (r: seq<T>)
    ensures |r| <= |items|
    ensures forall i :: 0 <= i < |r| ==> key(r[i]) == name
    decreases |items|
  {
    if items == [] then []
    else
      var init := Select(items[..|items| - 1], key, name);
      var x := items[|items| - 1];
      if key(x) == name then init + [x] else init
  }

  /** Selection only grows at the end when an item is appended. */
  lemma SelectAppend<T>(items: seq<T>, x: T, key: T -> string, name: string)
    ensures Select(items + [x], key, name) ==
      Select(items, key, name) + (if key(x) == name then [x] else [])
  {
    assert (items + [x])[..|items|] == items;
  }

  /** Every item carrying the label is selected. */
  lemma {:induction false} SelectComplete<T>(items: seq<T>, key: T -> string, i: nat)
    requires i < |items|
    ensures items[i] in Select(items, key, key(items[i]))
    decreases |items|
  {
    if i < |items| - 1 {
      SelectComplete(items[..|items| - 1], key, i);
    }
  }

  /** A label that occurs is selected at least once. */
  lemma SelectNonEmpty<T>(items: seq<T>, key: T -> string, name: string)
    requires name in Labels(items, key)
    ensures |Select(items, key, name)| > 0
  {
    var i :| 0 <= i < |items| && Labels(items, key)[i] == name;
    SelectComplete(items, key, i);
  }

  /**
   * The grouping as a definition: one bucket per distinct label in the order
   * of first occurrence, holding exactly the items with that label in their
   * original order.
   */
  function Grouped<T>(items: seq<T>, key: T -> string): (gs: seq<Group<T>>)
    ensures |gs| == |FirstOccurrences(Labels(items, key))|
    ensures forall j :: 0 <= j < |gs| ==> gs[j].name == FirstOccurrences(Labels(items, key))[j]
    ensures forall j :: 0 <= j < |gs| ==> gs[j].items == Select(items, key, gs[j].name)
  {
    var labels := FirstOccurrences(Labels(items, key));
    seq(|labels|, j requires 0 <= j < |labels| => Group(labels[j], Select(items, key, labels[j])))
  }

  /** Position of the first element of `s` called `name`, if there is one. */
  function IndexOfName<T>(s: seq<T>, nameOf: T -> string, name: string): (r: Option<nat>)
    ensures r.Some? ==> r.value < |s| && nameOf(s[r.value]) == name
    ensures r.Some? ==> forall j :: 0 <= j < r.value ==> nameOf(s[j]) != name
    ensures r.None? ==> forall j :: 0 <= j < |s| ==> nameOf(s[j]) != name
  {
    if s == [] then None
    else if nameOf(s[0]) == name then Some(0)
    else match IndexOfName(s[1..], nameOf, name)
      case None => None
      case Some(k) => Some(k + 1)
  }

  function GroupName<T>(g: Group<T>): string {
    g.name
  }

  /** Position of the bucket labelled `name`, if there is one. */
  function BucketIndex<T>(gs: seq<Group<T>>, name: string): (r: Option<nat>)
    ensures r.Some? ==> r.value < |gs| && gs[r.value].name == name
    ensures r.None? ==> forall j :: 0 <= j < |gs| ==> gs[j].name != name
  {
    var r := IndexOfName(gs, GroupName, name);
    assert r.None? ==> forall j :: 0 <= j < |gs| ==> GroupName(gs[j]) != name;
    r
  }

  /** One step of the grouping: create the bucket of `name` when it is missing, then push `x` onto it. */
  function Push<T>(gs: seq<Group<T>>, name: string, x: T): (r: seq<Group<T>>)
    ensures BucketIndex(gs, name).None? ==> r == gs + [Group(name, [x])]
    ensures BucketIndex(gs, name).Some? ==>
      var j := BucketIndex(gs, name).value;
      r == gs[j := Group(name, gs[j].items + [x])]
  {
    match BucketIndex(gs, name)
    case None => gs + [Group(name, [x])]
    case Some(j) => gs[j := Group(name, gs[j].items + [x])]
  }

  /** The labels of a longer prefix are those of the shorter one and the new item's. */
  lemma LabelsStep<T>(items: seq<T>, x: T, key: T -> string)
    ensures Labels(items + [x], key) == Labels(items, key) + [key(x)]
    ensures FirstOccurrences(Labels(items + [x], key)) ==
      var fo := FirstOccurrences(Labels(items, key));
      if key(x) in fo then fo else fo + [key(x)]
  {
    var ls := Labels(items, key);
    assert Labels(items + [x], key) == ls + [key(x)];
    assert (ls + [key(x)])[..|ls|] == ls;
  }

  /** An item with a new label opens a bucket at the end. */
  lemma GroupedStepNew<T>(items: seq<T>, x: T, key: T -> string)
    requires key(x) !in FirstOccurrences(Labels(items, key))
    ensures Grouped(items + [x], key) == Grouped(items, key) + [Group(key(x), [x])]
  {
    LabelsStep(items, x, key);
    SelectEmpty(items, key, key(x));
    SelectAppend(items, x, key, key(x));
    var labels := FirstOccurrences(Labels(items, key));
    var before := Grouped(items, key);
    var after := Grouped(items + [x], key);
    assert FirstOccurrences(Labels(items + [x], key)) == labels + [key(x)];
    assert |after| == |before| + 1;
    assert after[|before|] == Group(key(x), [x]);
    forall j | 0 <= j < |before| ensures after[j] == before[j] {
      assert after[j].name == labels[j] == before[j].name;
      SelectAppend(items, x, key, labels[j]);
    }
    assert after == before + [Group(key(x), [x])];
  }

  /** With a known label, each bucket either takes the item at its end or stays as it was. */
  lemma GroupedStepBucket<T>(items: seq<T>, x: T, key: T -> string, j: nat)
    requires key(x) in FirstOccurrences(Labels(items, key))
    requires j < |Grouped(items, key)|
    ensures |Grouped(items + [x], key)| == |Grouped(items, key)|
    ensures Grouped(items + [x], key)[j] ==
      if Grouped(items, key)[j].name == key(x) then Group(key(x), Grouped(items, key)[j].items + [x])
      else Grouped(items, key)[j]
  {
    LabelsStep(items, x, key);
    var labels := FirstOccurrences(Labels(items, key));
    assert FirstOccurrences(Labels(items + [x], key)) == labels;
    SelectAppend(items, x, key, labels[j]);
  }

  /** An item with a known label joins the end of that label's bucket. */
  lemma GroupedStepOld<T>(items: seq<T>, x: T, key: T -> string, j0: nat)
    requires j0 < |Grouped(items, key)| && Grouped(items, key)[j0].name == key(x)
    ensures Grouped(items + [x], key) ==
      Grouped(items, key)[j0 := Group(key(x), Grouped(items, key)[j0].items + [x])]
  {
    var before := Grouped(items, key);
    var after := Grouped(items + [x], key);
    var labels := FirstOccurrences(Labels(items, key));
    assert key(x) in labels by { assert labels[j0] == key(x); }
    GroupedStepBucket(items, x, key, j0);
    var pushed := before[j0 := Group(key(x), before[j0].items + [x])];
    forall j | 0 <= j < |after| ensures after[j] == pushed[j] {
      GroupedStepBucket(items, x, key, j);
      if j != j0 {
        assert before[j].name == labels[j] != labels[j0] == key(x);
      }
    }
  }

  /** Pushing the next item into the grouping of a prefix gives the grouping of the longer prefix. */
  lemma GroupedStep<T>(items: seq<T>, x: T, key: T -> string)
    ensures Grouped(items + [x], key) == Push(Grouped(items, key), key(x), x)
  {
    match BucketIndex(Grouped(items, key), key(x))
    case None => GroupedStepNew(items, x, key);
    case Some(j0) => GroupedStepOld(items, x, key, j0);
  }

  /** A label no item carries selects nothing. */
  lemma {:induction false} SelectEmpty<T>(items: seq<T>, key: T -> string, name: string)
    requires name !in Labels(items, key)
    ensures Select(items, key, name) == []
    decreases |items|
  {
    if items != [] {
      var init := items[..|items| - 1];
      assert Labels(items, key)[|items| - 1] == key(items[|items| - 1]);
      forall i | 0 <= i < |init| ensures Labels(init, key)[i] in Labels(items, key) {
        assert Labels(init, key)[i] == Labels(items, key)[i];
      }
      SelectEmpty(init, key, name);
    }
  }

  /**
   * `groupBy` as the page writes it: walk the items once, pushing each into
   * the bucket of its label, creating the bucket on the label's first
   * occurrence.
   */
  method GroupBy<T>(items: seq<T>, key: T -> string) returns (groups: seq<Group<T>>)
    ensures groups == Grouped(items, key)
  {
    groups := [];
    for i := 0 to |items|
      invariant groups == Grouped(items[..i], key)
    {
      GroupedStep(items[..i], items[i], key);
      assert items[..i + 1] == items[..i] + [items[i]];
      groups := Push(groups, key(items[i]), items[i]);
    }
    assert items[..|items|] == items;
  }

  // ---------------------------------------------------------------------------
  // Properties of the grouping

  function TotalSize<T>(gs: seq<Group<T>>): nat {
    if gs == [] then 0 else TotalSize(gs[..|gs| - 1]) + |gs[|gs| - 1].items|
  }

  lemma {:induction false} TotalSizeAppend<T>(gs: seq<Group<T>>, g: Group<T>)
    ensures TotalSize(gs + [g]) == TotalSize(gs) + |g.items|
  {
    assert (gs + [g])[..|gs|] == gs;
  }

  lemma {:induction false} TotalSizeUpdate<T>(gs: seq<Group<T>>, j: nat, g: Group<T>)
    requires j < |gs|
    ensures TotalSize(gs[j := g]) == TotalSize(gs) - |gs[j].items| + |g.items|
    decreases |gs|
  {
    var last := |gs| - 1;
    if j == last {
      assert gs[j := g] == gs[..last] + [g];
      assert gs == gs[..last] + [gs[last]];
      TotalSizeAppend(gs[..last], g);
      TotalSizeAppend(gs[..last], gs[last]);
    } else {
      TotalSizeUpdate(gs[..last], j, g);
      assert gs[j := g] == gs[..last][j := g] + [gs[last]];
      assert gs == gs[..last] + [gs[last]];
      TotalSizeAppend(gs[..last][j := g], gs[last]);
      TotalSizeAppend(gs[..last], gs[last]);
    }
  }

  /** Every item lands in exactly one bucket: the bucket sizes add up to the number of items. */
  lemma {:induction false} GroupedSizes<T>(items: seq<T>, key: T -> string)
    ensures TotalSize(Grouped(items, key)) == |items|
    decreases |items|
  {
    if items != [] {
      var init := items[..|items| - 1];
      var x := items[|items| - 1];
      assert items == init + [x];
      GroupedSizes(init, key);
      GroupedStep(init, x, key);
      var gs := Grouped(init, key);
      match BucketIndex(gs, key(x))
      case None => TotalSizeAppend(gs, Group(key(x), [x]));
      case Some(j) => TotalSizeUpdate(gs, j, Group(key(x), gs[j].items + [x]));
    }
  }

  /** The buckets have distinct labels and none is empty. */
  lemma GroupedShape<T>(items: seq<T>, key: T -> string)
    ensures forall i, j :: 0 <= i < j < |Grouped(items, key)| ==> Grouped(items, key)[i].name != Grouped(items, key)[j].name
    ensures forall j :: 0 <= j < |Grouped(items, key)| ==> |Grouped(items, key)[j].items| > 0
  {
    var gs := Grouped(items, key);
    forall j | 0 <= j < |gs| ensures |gs[j].items| > 0 {
      SelectNonEmpty(items, key, gs[j].name);
    }
  }

  /**
   * Each item is in the bucket of its own name and in no other bucket, so
   * two items share a bucket exactly when their labels are equal.
   */
  lemma ItemsInOwnBucket<T>(items: seq<T>, key: T -> string, i: nat)
    requires i < |items|
    ensures exists j :: (0 <= j < |Grouped(items, key)| && Grouped(items, key)[j].name == key(items[i])
      && items[i] in Grouped(items, key)[j].items)
    ensures forall j :: 0 <= j < |Grouped(items, key)| && items[i] in Grouped(items, key)[j].items ==>
      Grouped(items, key)[j].name == key(items[i])
  {
    var gs := Grouped(items, key);
    var ls := FirstOccurrences(Labels(items, key));
    assert key(items[i]) == Labels(items, key)[i];
    assert Labels(items, key)[i] in Labels(items, key);
    var j :| 0 <= j < |ls| && ls[j] == key(items[i]);
    SelectComplete(items, key, i);
    assert items[i] in gs[j].items;
  }

  /** Two items share a bucket exactly when their labels are equal. */
  lemma SharedBucket<T>(items: seq<T>, key: T -> string, a: nat, b: nat)
    requires a < |items| && b < |items|
    ensures (exists j :: 0 <= j < |Grouped(items, key)| && items[a] in Grouped(items, key)[j].items
               && items[b] in Grouped(items, key)[j].items)
      <==> key(items[a]) == key(items[b])
  {
    var gs := Grouped(items, key);
    ItemsInOwnBucket(items, key, a);
    ItemsInOwnBucket(items, key, b);
    if key(items[a]) == key(items[b]) {
      var j :| 0 <= j < |gs| && gs[j].name == key(items[a]) && items[a] in gs[j].items;
      SelectComplete(items, key, b);
      assert items[b] in gs[j].items;
    }
  }

  /** `a` is `b` with some elements left out and the rest kept in their order. */
  ghost predicate Subsequence<T>(a: seq<T>, b: seq<T>)
    decreases |b|
  {
    if a == [] then true
    else if b == [] then false
    else
      (a[|a| - 1] == b[|b| - 1] && Subsequence(a[..|a| - 1], b[..|b| - 1]))
      || Subsequence(a, b[..|b| - 1])
  }

  /** A bucket keeps its items in their relative input order. */
  lemma {:induction false} SelectSubsequence<T>(items: seq<T>, key: T -> string, name: string)
    ensures Subsequence(Select(items, key, name), items)
    decreases |items|
  {
    if items != [] {
      var init := items[..|items| - 1];
      var r := Select(items, key, name);
      SelectSubsequence(init, key, name);
      if key(items[|items| - 1]) == name {
        assert r[..|r| - 1] == Select(init, key, name);
      }
    }
  }
}
