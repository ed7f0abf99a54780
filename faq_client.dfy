/**
  The FAQ page client: the sorted topic list, search and topic filtering,
  grouping by topic, the set of open answers, and the JSON-LD answer text.
 */
module FaqClient {
  import opened Wrappers
  import opened Text

  // ---------------------------------------------------------------------
  // Data

  datatype AnswerChild = AnswerChild(text: Option<string>)

  datatype AnswerBlock = AnswerBlock(typeName: string, children: Option<seq<AnswerChild>>)

  datatype FaqItem = FaqItem(id: string, question: string, topic: string, answer: seq<AnswerBlock>)

  // ---------------------------------------------------------------------
  // String order (the default `sort`, taken here over scalar values; `sort`
  // itself compares UTF-16 code units)

  predicate LexLess(a: string, b: string) {
    if a == [] then b != []
    else if b == [] then false
    else if a[0] < b[0] then true
    else if a[0] == b[0] then LexLess(a[1..], b[1..])
    else false
  }

  lemma {:induction false} LexIrreflexive(a: string)
    ensures !LexLess(a, a)
  {
    if a != [] {
      LexIrreflexive(a[1..]);
    }
  }

  lemma {:induction false} LexTransitive(a: string, b: string, c: string)
    requires LexLess(a, b) && LexLess(b, c)
    ensures LexLess(a, c)
  {
    if a != [] && a[0] == b[0] && b[0] == c[0] {
      LexTransitive(a[1..], b[1..], c[1..]);
    }
  }

  lemma {:induction false} LexTotal(a: string, b: string)
    requires a != b
    ensures LexLess(a, b) || LexLess(b, a)
  {
    if a != [] && b != [] && a[0] == b[0] {
      assert a == [a[0]] + a[1..] && b == [b[0]] + b[1..];
      LexTotal(a[1..], b[1..]);
    }
  }

  predicate StrictlySorted(s: seq<string>) {
    forall i, j :: 0 <= i < j < |s| ==> LexLess(s[i], s[j])
  }

  function Elems(s: seq<string>): set<string> {
    set x | x in s
  }

  /** Inserts one title into a strictly sorted list, keeping it strictly
      sorted and adding exactly that title. */
  function InsertSorted(x: string, s: seq<string>): (r: seq<string>)
    requires StrictlySorted(s)
    ensures StrictlySorted(r)
    ensures Elems(r) == Elems(s) + {x}
  {
    if s == [] then [x]
    else if x == s[0] then s
    else if LexLess(x, s[0]) then
      InsertFront(x, s);
      [x] + s
    else
      LexTotal(x, s[0]);
      var rest := InsertSorted(x, s[1..]);
      InsertAfter(s[0], rest, s[1..], x);
      assert Elems(s) == {s[0]} + Elems(s[1..]) by {
        assert s == [s[0]] + s[1..];
      }
      assert Elems([s[0]] + rest) == {s[0]} + Elems(rest);
      [s[0]] + rest
  }

  lemma InsertFront(x: string, s: seq<string>)
    requires StrictlySorted(s) && s != [] && LexLess(x, s[0])
    ensures StrictlySorted([x] + s)
  {
    var r := [x] + s;
    forall i, j | 0 <= i < j < |r| ensures LexLess(r[i], r[j]) {
      if i == 0 && j > 1 {
        LexTransitive(x, s[0], s[j - 1]);
      }
    }
  }

  lemma InsertAfter(y: string, rest: seq<string>, s: seq<string>, x: string)
    requires StrictlySorted(rest) && Elems(rest) == Elems(s) + {x}
    requires LexLess(y, x) && forall k :: 0 <= k < |s| ==> LexLess(y, s[k])
    ensures StrictlySorted([y] + rest)
  {
    var r := [y] + rest;
    forall i, j | 0 <= i < j < |r| ensures LexLess(r[i], r[j]) {
      if i == 0 {
        assert r[j] in Elems(rest);
      }
    }
  }

  /** Two strictly sorted lists with the same elements are equal. */
  lemma {:induction false} SortedUnique(a: seq<string>, b: seq<string>)
    requires StrictlySorted(a) && StrictlySorted(b) && Elems(a) == Elems(b)
    ensures a == b
  {
    if a != [] {
      assert a[0] in Elems(b);
      var k :| 0 <= k < |b| && b[k] == a[0];
      assert b[0] in Elems(a);
      var m :| 0 <= m < |a| && a[m] == b[0];
      if k > 0 && m > 0 {
        LexTransitive(a[0], b[0], a[0]);
        LexIrreflexive(a[0]);
      }
      assert a[0] == b[0];
      forall x ensures x in Elems(a[1..]) <==> x in Elems(b[1..]) {
        if x in Elems(a[1..]) {
          var i :| 1 <= i < |a| && a[i] == x;
          LexIrreflexive(a[0]);
          assert x in Elems(b);
        }
        if x in Elems(b[1..]) {
          var i :| 1 <= i < |b| && b[i] == x;
          LexIrreflexive(b[0]);
          assert x in Elems(a);
        }
      }
      SortedUnique(a[1..], b[1..]);
    }
  }

  /** `Array.from(new Set(titles)).sort()`. */
  function DistinctSorted(titles: seq<string>): (r: seq<string>)
    ensures StrictlySorted(r)
    ensures Elems(r) == Elems(titles)
  {
    if titles == [] then []
    else InsertSorted(titles[0], DistinctSorted(titles[1..]))
  }

  function TopicTitles(items: seq<FaqItem>): (r: seq<string>)
    ensures |r| == |items| && forall i :: 0 <= i < |items| ==> r[i] == items[i].topic
  {
    seq(|items|, i requires 0 <= i < |items| => items[i].topic)
  }

  /** `topics`. */
  function Topics(items: seq<FaqItem>): seq<string> {
    DistinctSorted(TopicTitles(items))
  }

  /** The topic list is the one strictly ascending list of exactly the
      items' topic titles: sorted, without duplicates, missing none. */
  lemma TopicsCharacterised(items: seq<FaqItem>, s: seq<string>)
    ensures StrictlySorted(Topics(items))
    ensures forall t :: t in Topics(items) <==> exists i :: 0 <= i < |items| && items[i].topic == t
    ensures forall i, j :: 0 <= i < j < |Topics(items)| ==> Topics(items)[i] != Topics(items)[j]
    ensures StrictlySorted(s) && Elems(s) == Elems(TopicTitles(items)) ==> s == Topics(items)
  {
    var r := Topics(items);
    forall t ensures t in r <==> exists i :: 0 <= i < |items| && items[i].topic == t {
      assert t in r <==> t in Elems(TopicTitles(items));
      if t in Elems(TopicTitles(items)) {
        var i :| 0 <= i < |items| && TopicTitles(items)[i] == t;
      }
      if exists i :: 0 <= i < |items| && items[i].topic == t {
        var i :| 0 <= i < |items| && items[i].topic == t;
        assert TopicTitles(items)[i] == t;
      }
    }
    forall i, j | 0 <= i < j < |r| ensures r[i] != r[j] {
      if r[i] == r[j] { LexIrreflexive(r[i]); }
    }
    if StrictlySorted(s) && Elems(s) == Elems(TopicTitles(items)) {
      SortedUnique(s, r);
    }
  }

  // ---------------------------------------------------------------------
  // Filtering

  /** An answer block matches when it is a text block one of whose children
      has text that contains the search term, ignoring case. */
  predicate BlockMatches(block: AnswerBlock, term: string) {
    && block.typeName == "block"
    && block.children.Some?
    && exists c :: c in block.children.value && c.text.Some? && Contains(ToLower(c.text.value), ToLower(term))
  }

  predicate MatchesSearch(item: FaqItem, term: string) {
    || term == ""
    || Contains(ToLower(item.question), ToLower(term))
    || exists b :: b in item.answer && BlockMatches(b, term)
  }

  predicate MatchesTopic(item: FaqItem, topic: string) {
    topic == "all" || item.topic == topic
  }

  predicate Keep(item: FaqItem, term: string, topic: string) {
    MatchesSearch(item, term) && MatchesTopic(item, topic)
  }

  /** `filteredItems`. */
  function Filtered(items: seq<FaqItem>, term: string, topic: string): seq<FaqItem> {
    if items == [] then []
    else
      var rest := Filtered(items[..|items| - 1], term, topic);
      if Keep(items[|items| - 1], term, topic) then rest + [items[|items| - 1]] else rest
  }

  /** An item is shown exactly when it is one of the items and passes both
      the search and the topic test. */
  lemma {:induction false} FilteredMembers(items: seq<FaqItem>, term: string, topic: string)
    ensures forall x :: x in Filtered(items, term, topic) <==> x in items && Keep(x, term, topic)
  {
    if items != [] {
      var init := items[..|items| - 1];
      FilteredMembers(init, term, topic);
      assert items == init + [items[|items| - 1]];
    }
  }

  /** Filtering keeps the order: filtering a concatenation concatenates the
      filtered parts. */
  lemma {:induction false} FilteredAppend(xs: seq<FaqItem>, ys: seq<FaqItem>, term: string, topic: string)
    ensures Filtered(xs + ys, term, topic) == Filtered(xs, term, topic) + Filtered(ys, term, topic)
    decreases |ys|
  {
    if ys == [] {
      assert xs + ys == xs;
    } else {
      var init := ys[..|ys| - 1];
      FilteredAppend(xs, init, term, topic);
      assert (xs + ys)[..|xs + ys| - 1] == xs + init;
    }
  }

  /** With an empty search and the `all` topic every item is shown. */
  lemma {:induction false} NoFilterKeepsAll(items: seq<FaqItem>)
    ensures Filtered(items, "", "all") == items
  {
    if items != [] {
      NoFilterKeepsAll(items[..|items| - 1]);
    }
  }

  /** A topic other than `all` shows only items of that topic. */
  lemma TopicFilterSound(items: seq<FaqItem>, term: string, topic: string)
    requires topic != "all"
    ensures forall x :: x in Filtered(items, term, topic) ==> x.topic == topic
  {
    FilteredMembers(items, term, topic);
  }

  // ---------------------------------------------------------------------
  // Grouping by topic

  /** The items of one topic, in order. */
  function OfTopic(items: seq<FaqItem>, t: string): seq<FaqItem> {
    if items == [] then []
    else
      var rest := OfTopic(items[..|items| - 1], t);
      if items[|items| - 1].topic == t then rest + [items[|items| - 1]] else rest
  }

  lemma {:induction false} OfTopicMembers(items: seq<FaqItem>, t: string)
    ensures forall x :: x in OfTopic(items, t) <==> x in items && x.topic == t
  {
    if items != [] {
      var init := items[..|items| - 1];
      OfTopicMembers(init, t);
      assert items == init + [items[|items| - 1]];
    }
  }

  predicate Distinct(s: seq<string>) {
    forall i, j :: 0 <= i < j < |s| ==> s[i] != s[j]
  }

  /** A topic has items iff some item is of that topic. */
  lemma OfTopicNonEmpty(items: seq<FaqItem>, t: string)
    ensures OfTopic(items, t) != [] <==> exists i :: 0 <= i < |items| && items[i].topic == t
  {
    OfTopicMembers(items, t);
    if OfTopic(items, t) != [] {
      assert OfTopic(items, t)[0] in OfTopic(items, t);
    }
    if exists i :: 0 <= i < |items| && items[i].topic == t {
      var i :| 0 <= i < |items| && items[i].topic == t;
      assert items[i] in items;
    }
  }

  /** `keys` and `groups` hold the grouping of `done`: one group per topic
      that has items, each that topic's items in order, keys distinct. */
  ghost predicate GroupsOf(keys: seq<string>, groups: map<string, seq<FaqItem>>, done: seq<FaqItem>) {
    && Distinct(keys) && Elems(keys) == groups.Keys
    && (forall t :: t in groups <==> OfTopic(done, t) != [])
    && (forall t :: t in groups ==> groups[t] == OfTopic(done, t))
  }

  /** One more item adds itself to its own topic's items only. */
  lemma OfTopicStep(items: seq<FaqItem>, i: int, u: string)
    requires 0 <= i < |items|
    ensures OfTopic(items[..i + 1], u)
            == if items[i].topic == u then OfTopic(items[..i], u) + [items[i]] else OfTopic(items[..i], u)
  {
    assert items[..i + 1][..i] == items[..i];
  }

  /** Appending a new key keeps the keys distinct and adds it to their set. */
  lemma PushKey(keys: seq<string>, t: string)
    requires Distinct(keys) && t !in Elems(keys)
    ensures Distinct(keys + [t]) && Elems(keys + [t]) == Elems(keys) + {t}
  {
  }

  /** The index of the first item of topic `t`, or `|items|` when there is none. */
  function FirstAt(items: seq<FaqItem>, t: string): (r: nat)
    ensures r <= |items|
    ensures r < |items| ==> items[r].topic == t
    ensures forall k :: 0 <= k < r ==> items[k].topic != t
  {
    if items == [] then 0
    else if items[0].topic == t then 0
    else
      var r := FirstAt(items[1..], t);
      assert forall k :: 0 < k < 1 + r ==> items[k] == items[1..][k - 1];
      1 + r
  }

  /** The keys so far are topics whose first item lies before index `i`,
      listed in the order of those first items. */
  ghost predicate KeysInFirstOrder(keys: seq<string>, items: seq<FaqItem>, i: int) {
    && (forall a :: 0 <= a < |keys| ==> FirstAt(items, keys[a]) < i)
    && (forall a, b :: 0 <= a < b < |keys| ==> FirstAt(items, keys[a]) < FirstAt(items, keys[b]))
  }

  /** A topic met for the first time at index `i` goes after every earlier key. */
  lemma KeyOrderStep(keys: seq<string>, groups: map<string, seq<FaqItem>>, items: seq<FaqItem>, i: int)
    requires 0 <= i < |items| && GroupsOf(keys, groups, items[..i]) && KeysInFirstOrder(keys, items, i)
    ensures var t := items[i].topic;
            KeysInFirstOrder(if t in groups then keys else keys + [t], items, i + 1)
  {
    var t := items[i].topic;
    if t !in groups {
      OfTopicNonEmpty(items[..i], t);
      assert FirstAt(items, t) == i;
    }
  }

  /** One step of the grouping loop: create the group if it is missing,
      then push the item onto it. */
  lemma GroupStep(keys: seq<string>, groups: map<string, seq<FaqItem>>, items: seq<FaqItem>, i: int)
    requires 0 <= i < |items| && GroupsOf(keys, groups, items[..i])
    ensures var t := items[i].topic;
            var g1 := if t in groups then groups else groups[t := []];
            var k1 := if t in groups then keys else keys + [t];
            GroupsOf(k1, g1[t := g1[t] + [items[i]]], items[..i + 1])
  {
    var t := items[i].topic;
    var done := items[..i + 1];
    var g1 := if t in groups then groups else groups[t := []];
    var k1 := if t in groups then keys else keys + [t];
    var g2 := g1[t := g1[t] + [items[i]]];
    if t !in groups {
      PushKey(keys, t);
    }
    assert g2.Keys == groups.Keys + {t};
    forall u ensures (u in g2 <==> OfTopic(done, u) != []) && (u in g2 ==> g2[u] == OfTopic(done, u)) {
      OfTopicStep(items, i, u);
    }
  }

  /** `groupedItems`: one group per topic, created on the topic's first
      item; `keys` is the order in which the groups were created, which is
      the order of each topic's first item. */
  method GroupByTopic(items: seq<FaqItem>) returns (keys: seq<string>, groups: map<string, seq<FaqItem>>)
    ensures Distinct(keys) && Elems(keys) == groups.Keys
    ensures forall a, b :: 0 <= a < b < |keys| ==> FirstAt(items, keys[a]) < FirstAt(items, keys[b])
    ensures forall t :: t in groups <==> exists i :: 0 <= i < |items| && items[i].topic == t
    ensures forall t :: t in groups ==> groups[t] == OfTopic(items, t) && groups[t] != []
  {
    keys := [];
    groups := map[];
    for i := 0 to |items|
      invariant GroupsOf(keys, groups, items[..i])
      invariant KeysInFirstOrder(keys, items, i)
    {
      GroupStep(keys, groups, items, i);
      KeyOrderStep(keys, groups, items, i);
      var item := items[i];
      var topicTitle := item.topic;
      if topicTitle !in groups {
        groups := groups[topicTitle := []];
        keys := keys + [topicTitle];
      }
      groups := groups[topicTitle := groups[topicTitle] + [item]];
    }
    assert items[..|items|] == items;
    forall t ensures t in groups <==> exists i :: 0 <= i < |items| && items[i].topic == t {
      OfTopicNonEmpty(items, t);
    }
  }

  /** Every shown item is in exactly one group, the group of its topic. */
  lemma GroupsPartition(items: seq<FaqItem>, x: FaqItem, t: string)
    requires x in items
    ensures x in OfTopic(items, x.topic)
    ensures t != x.topic ==> x !in OfTopic(items, t)
  {
    OfTopicMembers(items, x.topic);
    OfTopicMembers(items, t);
  }

  // ---------------------------------------------------------------------
  // Open answers

  /** The set after `toggleItem(id)`. */
  function Toggled(open: set<string>, id: string): set<string> {
    if id in open then open - {id} else open + {id}
  }

  /** Toggling flips exactly the one id, and toggling twice restores the set. */
  lemma ToggleProperties(open: set<string>, id: string)
    ensures id in Toggled(open, id) <==> id !in open
    ensures forall x :: x != id ==> (x in Toggled(open, id) <==> x in open)
    ensures Toggled(Toggled(open, id), id) == open
  {
  }

  /** The page state: search box, open answers and selected topic over a
      fixed list of items. */
  class FaqPage {
    const items: seq<FaqItem>
    var searchTerm: string
    var openItems: set<string>
    var selectedTopic: string

    constructor(faqItems: seq<FaqItem>)
      ensures items == faqItems && searchTerm == "" && openItems == {} && selectedTopic == "all"
    {
      items := faqItems;
      searchTerm := "";
      openItems := {};
      selectedTopic := "all";
    }

    /** The items on show. */
    function Shown(): seq<FaqItem>
      reads this
    {
      Filtered(items, searchTerm, selectedTopic)
    }

    method SetSearchTerm(term: string)
      modifies this
      ensures searchTerm == term && openItems == old(openItems) && selectedTopic == old(selectedTopic)
    {
      searchTerm := term;
    }

    method SelectTopic(topic: string)
      modifies this
      ensures selectedTopic == topic && searchTerm == old(searchTerm) && openItems == old(openItems)
    {
      selectedTopic := topic;
    }

    /** `toggleItem`. */
    method ToggleItem(id: string)
      modifies this
      ensures openItems == Toggled(old(openItems), id)
      ensures searchTerm == old(searchTerm) && selectedTopic == old(selectedTopic)
    {
      var newOpenItems := openItems;
      if id in newOpenItems {
        newOpenItems := newOpenItems - {id};
      } else {
        newOpenItems := newOpenItems + {id};
      }
      openItems := newOpenItems;
    }

    /** The Clear Filters button: afterwards every item is shown again. */
    method ClearFilters()
      modifies this
      ensures searchTerm == "" && selectedTopic == "all" && openItems == old(openItems)
      ensures Shown() == items
    {
      searchTerm := "";
      selectedTopic := "all";
      NoFilterKeepsAll(items);
    }
  }

  // ---------------------------------------------------------------------
  // JSON-LD

  /** A block's text: its children's texts joined by spaces (a missing text
      joins as empty), or empty for a block that is not a text block. */
  function BlockText(block: AnswerBlock): string {
    if block.typeName == "block" && block.children.Some? then
      var kids := block.children.value;
      Join(seq(|kids|, i requires 0 <= i < |kids| => kids[i].text.GetOr("")), " ")
    else ""
  }

  function AnswerText(answer: seq<AnswerBlock>): string {
    Join(seq(|answer|, i requires 0 <= i < |answer| => BlockText(answer[i])), " ")
  }

  datatype Question = Question(name: string, answerText: string)

  /** `mainEntity` of the JSON-LD: one question per item of the unfiltered list. */
  function MainEntity(items: seq<FaqItem>): (r: seq<Question>)
    ensures |r| == |items|
    ensures forall i :: 0 <= i < |items| ==> r[i] == Question(items[i].question, AnswerText(items[i].answer))
  {
    seq(|items|, i requires 0 <= i < |items| => Question(items[i].question, AnswerText(items[i].answer)))
  }

  lemma OccursWithin(a: string, b: string, c: string, k1: int, k2: int)
    requires OccursAt(a, b, k1) && OccursAt(b, c, k2)
    ensures OccursAt(a, c, k1 + k2)
  {
    forall j | 0 <= j < |c| ensures a[k1 + k2 + j] == c[j] {
      assert c[j] == b[k2..k2 + |c|][j] == b[k2 + j];
      assert b[k2 + j] == a[k1..k1 + |b|][k2 + j] == a[k1 + k2 + j];
    }
    assert a[k1 + k2..k1 + k2 + |c|] == c;
  }

  /** Each element of a joined list occurs in the joined text. */
  lemma {:induction false} JoinHasElement(xs: seq<string>, sep: string, i: int)
    requires 0 <= i < |xs|
    ensures exists k :: OccursAt(Join(xs, sep), xs[i], k)
  {
    var j := Join(xs, sep);
    if |xs| == 1 {
      assert OccursAt(j, xs[0], 0);
    } else if i == 0 {
      assert j == xs[0] + sep + Join(xs[1..], sep);
      assert j[..|xs[0]|] == xs[0];
      assert OccursAt(j, xs[0], 0);
    } else {
      JoinHasElement(xs[1..], sep, i - 1);
      var k :| OccursAt(Join(xs[1..], sep), xs[1..][i - 1], k);
      var off := |xs[0]| + |sep|;
      assert j == xs[0] + sep + Join(xs[1..], sep);
      assert OccursAt(j, Join(xs[1..], sep), off) by {
        assert j[off..off + |Join(xs[1..], sep)|] == Join(xs[1..], sep);
      }
      OccursWithin(j, Join(xs[1..], sep), xs[i], off, k);
    }
  }

  /** Every span text of every text block occurs in the JSON-LD answer text. */
  lemma AnswerTextHasSpans(answer: seq<AnswerBlock>, b: int, c: int)
    requires 0 <= b < |answer| && answer[b].typeName == "block" && answer[b].children.Some?
    requires 0 <= c < |answer[b].children.value| && answer[b].children.value[c].text.Some?
    ensures Contains(AnswerText(answer), answer[b].children.value[c].text.value)
  {
    var kids := answer[b].children.value;
    var texts := seq(|kids|, i requires 0 <= i < |kids| => kids[i].text.GetOr(""));
    var blocks := seq(|answer|, i requires 0 <= i < |answer| => BlockText(answer[i]));
    JoinHasElement(texts, " ", c);
    var k1 :| OccursAt(BlockText(answer[b]), texts[c], k1);
    JoinHasElement(blocks, " ", b);
    var k2 :| OccursAt(AnswerText(answer), blocks[b], k2);
    OccursWithin(AnswerText(answer), blocks[b], texts[c], k2, k1);
  }
}
