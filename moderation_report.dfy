/** The moderation report: nothing is shown for a missing or empty label list; otherwise the
    labels are grouped by taxonomy level, the levels are listed in ascending order, the
    highest confidence is shown in the summary and every label gets a badge whose colour
    depends on its confidence. */
module ModerationReport {
  import opened Common
  import opened ModerationLabels

  /** A label above this confidence gets the red badge. */
  const RED_ABOVE: real := 90.0

  /** A label above this confidence, and not above `RED_ABOVE`, gets the amber badge. */
  const AMBER_ABOVE: real := 70.0

  // ---------------------------------------------------------------------------------------
  // Badges

  datatype Tier = Red | Amber | Blue

  /** The badge colour: red above 90, amber above 70, blue otherwise; both bounds are strict. */
  function BadgeTier(confidence: real): (t: Tier)
    ensures t == Red <==> confidence > RED_ABOVE
    ensures t == Amber <==> AMBER_ABOVE < confidence <= RED_ABOVE
    ensures t == Blue <==> confidence <= AMBER_ABOVE
  {
    if confidence > RED_ABOVE then Red
    else if confidence > AMBER_ABOVE then Amber
    else Blue
  }

  /** The parent line is rendered when the parent name is a non-empty (truthy) string. */
  function ShowsParent(l: Label): (shown: bool)
    ensures shown <==> |l.parentName| > 0
  {
    l.parentName != ""
  }

  // ---------------------------------------------------------------------------------------
  // Grouping by taxonomy level

  /** The labels of `ls` whose taxonomy level is `k`, in input order. */
  function AtLevel(ls: seq<Label>, k: int): seq<Label>
  {
    if ls == [] then []
    else AtLevel(ls[..|ls| - 1], k) + (if ls[|ls| - 1].taxonomyLevel == k then [ls[|ls| - 1]] else [])
  }

  /** The taxonomy levels that occur in `ls`. */
  function LevelsOf(ls: seq<Label>): set<int>
  {
    set l | l in ls :: l.taxonomyLevel
  }

  /** Grouping distributes over concatenation: the labels of an earlier part of the input come
      before those of a later part, so each group keeps the input order. */
  lemma {:induction false} AtLevelAppend(a: seq<Label>, b: seq<Label>, k: int)
    ensures AtLevel(a + b, k) == AtLevel(a, k) + AtLevel(b, k)
    decreases |b|
  {
    if b == [] {
      assert a + b == a;
    } else {
      var b' := b[..|b| - 1];
      assert (a + b)[..|a + b| - 1] == a + b';
      AtLevelAppend(a, b', k);
    }
  }

  /** A group holds exactly the labels at its level, each as many times as it occurs in the
      input, and its size is the number of input labels at that level. */
  lemma {:induction false} AtLevelContents(ls: seq<Label>, k: int)
    ensures forall l :: l in AtLevel(ls, k) ==> l in ls && l.taxonomyLevel == k
    ensures forall l :: multiset(AtLevel(ls, k))[l] == if l.taxonomyLevel == k then multiset(ls)[l] else 0
    ensures AtLevel(ls, k) != [] <==> k in LevelsOf(ls)
  {
    if ls != [] {
      var init, x := ls[..|ls| - 1], ls[|ls| - 1];
      assert ls == init + [x];
      AtLevelContents(init, k);
      assert LevelsOf(ls) == LevelsOf(init) + {x.taxonomyLevel};
    }
  }

  /** `groups` holds one key per level of `ls`, and under each key the labels at that level in
      input order. */
  predicate GroupedBy(groups: map<int, seq<Label>>, ls: seq<Label>)
  {
    && groups.Keys == LevelsOf(ls)
    && forall k :: k in groups ==> groups[k] == AtLevel(ls, k)
  }

  lemma LevelsOfSnoc(ls: seq<Label>, x: Label)
    ensures LevelsOf(ls + [x]) == LevelsOf(ls) + {x.taxonomyLevel}
  {
    forall k | k in LevelsOf(ls + [x])
      ensures k in LevelsOf(ls) + {x.taxonomyLevel}
    {
      var l :| l in ls + [x] && l.taxonomyLevel == k;
      if l != x {
        assert l in ls;
      }
    }
    forall k | k in LevelsOf(ls)
      ensures k in LevelsOf(ls + [x])
    {
      var l :| l in ls && l.taxonomyLevel == k;
      assert l in ls + [x];
    }
    assert x in ls + [x];
  }

  /** Pushing one more label onto the group of its level (created empty when missing) keeps the
      accumulator grouped. */
  lemma GroupedByPush(groups: map<int, seq<Label>>, ls: seq<Label>, x: Label)
    requires GroupedBy(groups, ls)
    ensures var k := x.taxonomyLevel;
      var created := if k in groups then groups else groups[k := []];
      GroupedBy(created[k := created[k] + [x]], ls + [x])
  {
    var k := x.taxonomyLevel;
    var created := if k in groups then groups else groups[k := []];
    var pushed := created[k := created[k] + [x]];
    assert (ls + [x])[..|ls + [x]| - 1] == ls;
    LevelsOfSnoc(ls, x);
    assert pushed.Keys == groups.Keys + {k};
    AtLevelContents(ls, k);
    assert created[k] == AtLevel(ls, k);
    forall j | j in pushed
      ensures pushed[j] == AtLevel(ls + [x], j)
    {
      if j != k {
        assert pushed[j] == groups[j];
      }
    }
  }

  /** The grouping `reduce`: an empty accumulator, and for each label in turn a fresh array
      under its level when there is none yet, then the label pushed onto it. The result has
      one key per level present, and under each key the labels at that level in input order. */
  method GroupByLevel(labels: seq<Label>) returns (groups: map<int, seq<Label>>)
    ensures groups.Keys == LevelsOf(labels)
    ensures forall k :: k in groups ==> groups[k] == AtLevel(labels, k)
  {
    groups := map[];
    var i := 0;
    while i < |labels|
      invariant 0 <= i <= |labels|
      invariant GroupedBy(groups, labels[..i])
    {
      var next := labels[i];
      GroupedByPush(groups, labels[..i], next);
      if next.taxonomyLevel !in groups {
        groups := groups[next.taxonomyLevel := []];
      }
      groups := groups[next.taxonomyLevel := groups[next.taxonomyLevel] + [next]];
      assert labels[..i + 1] == labels[..i] + [next];
      i := i + 1;
    }
    assert labels[..i] == labels;
  }

  // ---------------------------------------------------------------------------------------
  // Sorted levels

  predicate Ascending(s: seq<int>)
  {
    forall i, j :: 0 <= i < j < |s| ==> s[i] < s[j]
  }

  /** A finite set of integers that holds `x` has a least element, found by descending from
      `x` through the elements below it. */
  lemma {:induction false} LeastBelow(s: set<int>, x: int)
    requires x in s
    ensures exists m :: m in s && forall k :: k in s ==> m <= k
    decreases s
  {
    var below := set k | k in s && k < x;
    if y :| y in below {
      assert x in s - below;
      LeastBelow(below, y);
      var m :| m in below && forall k :: k in below ==> m <= k;
      forall k | k in s
        ensures m <= k
      {
        if k < x {
          assert k in below;
        }
      }
    } else {
      forall k | k in s
        ensures x <= k
      {
        assert k < x ==> k in below;
      }
    }
  }

  lemma HasMinimum(s: set<int>)
    requires s != {}
    ensures exists m :: m in s && forall k :: k in s ==> m <= k
  {
    if forall y :: y !in s {
      assert false;
    }
    var x :| x in s;
    LeastBelow(s, x);
  }

  /** The object's keys read back as numbers and sorted with `(a, b) => a - b`: the keys in
      strictly ascending order. */
  function SortedKeys(keys: set<int>): (levels: seq<int>)
    ensures Ascending(levels)
    ensures forall k :: k in levels <==> k in keys
    ensures |levels| == |keys|
    decreases keys
  {
    if keys == {} then []
    else
      HasMinimum(keys);
      var m :| m in keys && forall k :: k in keys ==> m <= k;
      var rest := SortedKeys(keys - {m});
      assert forall k :: k in rest ==> m < k;
      [m] + rest
  }

  // ---------------------------------------------------------------------------------------
  // Maximum confidence

  /** `Math.max` over the confidences of a non-empty list: an upper bound that some label
      reaches. */
  function MaxConfidence(ls: seq<Label>): (max: real)
    requires ls != []
    ensures forall l :: l in ls ==> l.confidence <= max
    ensures exists l :: l in ls && l.confidence == max
  {
    if |ls| == 1 then
      assert ls[0] in ls;
      ls[0].confidence
    else
      var rest := MaxConfidence(ls[1..]);
      assert forall l :: l in ls <==> l == ls[0] || l in ls[1..];
      if ls[0].confidence >= rest then ls[0].confidence else rest
  }

  // ---------------------------------------------------------------------------------------
  // The report

  /** One rendered label: the label, its badge and whether its parent line is shown. */
  datatype Entry = Entry(shown: Label, tier: Tier, showsParent: bool)

  /** The block of one taxonomy level. */
  datatype Section = Section(level: int, entries: seq<Entry>)

  /** What the report shows: the label count, the highest confidence and the level blocks. */
  datatype Report = Report(total: nat, maxConfidence: real, sections: seq<Section>)

  function EntryFor(l: Label): Entry
  {
    Entry(l, BadgeTier(l.confidence), ShowsParent(l))
  }

  function Entries(ls: seq<Label>): (es: seq<Entry>)
    ensures |es| == |ls|
    ensures forall i :: 0 <= i < |ls| ==> es[i] == EntryFor(ls[i])
  {
    if ls == [] then [] else [EntryFor(ls[0])] + Entries(ls[1..])
  }

  /** The labels in the order the report lists them: level by level, in the order of `levels`. */
  function Listed(ls: seq<Label>, levels: seq<int>): seq<Label>
  {
    if levels == [] then [] else AtLevel(ls, levels[0]) + Listed(ls, levels[1..])
  }

  /** Adding one label to the input adds it once to the listing when its level is listed. */
  lemma {:induction false} ListedAppend(ls: seq<Label>, x: Label, levels: seq<int>)
    requires Ascending(levels)
    ensures multiset(Listed(ls + [x], levels))
      == multiset(Listed(ls, levels)) + if x.taxonomyLevel in levels then multiset{x} else multiset{}
  {
    if levels != [] {
      assert (ls + [x])[..|ls + [x]| - 1] == ls;
      assert x.taxonomyLevel in levels <==> x.taxonomyLevel == levels[0] || x.taxonomyLevel in levels[1..];
      assert x.taxonomyLevel == levels[0] ==> x.taxonomyLevel !in levels[1..];
      ListedAppend(ls, x, levels[1..]);
    }
  }

  /** Listing the groups of every level present, each level once, shows every label exactly as
      often as it occurs: no label is lost or duplicated, so the group sizes add up to the
      number of labels. */
  lemma {:induction false} ListedIsPermutation(ls: seq<Label>, levels: seq<int>)
    requires Ascending(levels)
    requires forall k :: k in LevelsOf(ls) ==> k in levels
    ensures multiset(Listed(ls, levels)) == multiset(ls)
    ensures |Listed(ls, levels)| == |ls|
    decreases |ls|
  {
    if ls == [] {
      ListedOfEmpty(levels);
    } else {
      var init, x := ls[..|ls| - 1], ls[|ls| - 1];
      assert ls == init + [x];
      assert LevelsOf(ls) == LevelsOf(init) + {x.taxonomyLevel};
      ListedIsPermutation(init, levels);
      ListedAppend(init, x, levels);
    }
    assert |multiset(Listed(ls, levels))| == |Listed(ls, levels)|;
  }

  lemma {:induction false} ListedOfEmpty(levels: seq<int>)
    ensures Listed([], levels) == []
  {
    if levels != [] {
      ListedOfEmpty(levels[1..]);
    }
  }

  /** The level blocks for `levels`, each listing its group's labels with their badges. */
  function SectionsFor(groups: map<int, seq<Label>>, levels: seq<int>): (ss: seq<Section>)
    requires forall i :: 0 <= i < |levels| ==> levels[i] in groups
    ensures |ss| == |levels|
    ensures forall i :: 0 <= i < |levels| ==> ss[i] == Section(levels[i], Entries(groups[levels[i]]))
  {
    if levels == [] then []
    else [Section(levels[0], Entries(groups[levels[0]]))] + SectionsFor(groups, levels[1..])
  }

  /** The headings of the level blocks, in display order. */
  function Headings(sections: seq<Section>): (levels: seq<int>)
    ensures |levels| == |sections|
    ensures forall i :: 0 <= i < |sections| ==> levels[i] == sections[i].level
  {
    if sections == [] then [] else [sections[0].level] + Headings(sections[1..])
  }

  /** The labels of some rendered entries, in order. */
  function EntryLabels(es: seq<Entry>): seq<Label>
  {
    if es == [] then [] else [es[0].shown] + EntryLabels(es[1..])
  }

  lemma {:induction false} EntryLabelsOfEntries(ls: seq<Label>)
    ensures EntryLabels(Entries(ls)) == ls
  {
    if ls != [] {
      assert Entries(ls)[1..] == Entries(ls[1..]);
      EntryLabelsOfEntries(ls[1..]);
    }
  }

  /** The labels shown in the level blocks, in display order. */
  function Shown(sections: seq<Section>): seq<Label>
  {
    if sections == [] then [] else EntryLabels(sections[0].entries) + Shown(sections[1..])
  }

  lemma {:induction false} ShownSections(ls: seq<Label>, groups: map<int, seq<Label>>, levels: seq<int>)
    requires forall i :: 0 <= i < |levels| ==> levels[i] in groups && groups[levels[i]] == AtLevel(ls, levels[i])
    ensures Shown(SectionsFor(groups, levels)) == Listed(ls, levels)
  {
    if levels != [] {
      var ss := SectionsFor(groups, levels);
      assert ss[1..] == SectionsFor(groups, levels[1..]);
      EntryLabelsOfEntries(groups[levels[0]]);
      ShownSections(ls, groups, levels[1..]);
    }
  }

  lemma HeadingsOfSections(groups: map<int, seq<Label>>, levels: seq<int>)
    requires forall i :: 0 <= i < |levels| ==> levels[i] in groups
    ensures Headings(SectionsFor(groups, levels)) == levels
  {
  }

  lemma EntriesOfSections(ls: seq<Label>, groups: map<int, seq<Label>>, levels: seq<int>)
    requires forall i :: 0 <= i < |levels| ==> levels[i] in groups && groups[levels[i]] == AtLevel(ls, levels[i])
    ensures forall s :: s in SectionsFor(groups, levels) ==> s.entries == Entries(AtLevel(ls, s.level))
  {
    var ss := SectionsFor(groups, levels);
    forall s | s in ss
      ensures s.entries == Entries(AtLevel(ls, s.level))
    {
      var i :| 0 <= i < |ss| && ss[i] == s;
    }
  }

  /** The level blocks built from a grouping, for its keys in ascending order: the headings are
      those levels, each block lists its level's labels, and together they show every label
      exactly as often as it occurs. */
  lemma SectionsCoverLabels(ls: seq<Label>, groups: map<int, seq<Label>>, levels: seq<int>)
    requires GroupedBy(groups, ls)
    requires Ascending(levels) && forall k :: k in levels <==> k in groups
    requires forall i :: 0 <= i < |levels| ==> levels[i] in groups
    ensures var ss := SectionsFor(groups, levels);
      && Headings(ss) == levels
      && (forall s :: s in ss ==> s.entries == Entries(AtLevel(ls, s.level)))
      && multiset(Shown(ss)) == multiset(ls)
  {
    HeadingsOfSections(groups, levels);
    EntriesOfSections(ls, groups, levels);
    ShownSections(ls, groups, levels);
    ListedIsPermutation(ls, levels);
  }

  /** The component: `None` (it renders nothing) for a missing or empty list; otherwise the
      total, the highest confidence, and one block per level present, in ascending order,
      listing that level's labels in input order with their badges. Across the blocks every
      label appears exactly as often as in the input. */
  method BuildReport(labels: Option<seq<Label>>) returns (report: Option<Report>)
    ensures report.None? <==> labels.None? || labels.value == []
    ensures report.Some? ==>
      var ls, r := labels.value, report.value;
      && r.total == |ls|
      && (forall l :: l in ls ==> l.confidence <= r.maxConfidence)
      && (exists l :: l in ls && l.confidence == r.maxConfidence)
      && Ascending(Headings(r.sections))
      && (forall k :: k in Headings(r.sections) <==> k in LevelsOf(ls))
      && (forall s :: s in r.sections ==> s.entries == Entries(AtLevel(ls, s.level)))
      && multiset(Shown(r.sections)) == multiset(ls)
  {
    if labels.None? || labels.value == [] {
      return None;
    }
    var ls := labels.value;
    var groups := GroupByLevel(ls);
    var levels := SortedKeys(groups.Keys);
    assert forall i :: 0 <= i < |levels| ==> levels[i] in groups;
    var sections := SectionsFor(groups, levels);
    SectionsCoverLabels(ls, groups, levels);
    report := Some(Report(|ls|, MaxConfidence(ls), sections));
  }
}
