/**
  The portable-text renderer of the blog and FAQ pages: consecutive list
  blocks are folded into list runs, each span is wrapped in one element per
  recognised mark, and each block is dispatched on its style.  The rendered
  output is a `RenderNode` tree standing for the React elements.
 */
module PortableText {
  import opened Wrappers
  import opened Text

  // ---------------------------------------------------------------------
  // Input

  /** Any `_type` of a non-image block. */
  type BlockType = t: string | t != "image" witness "block"

  datatype Span = Span(text: string, marks: Option<seq<string>>)

  datatype MarkDef = MarkDef(typeName: string, key: string, href: Option<string>)

  /** One element of the content array: an image (`_type == 'image'`) or any
      other block, whose optional fields may be missing. */
  datatype Content =
    | Image(alt: Option<string>, caption: Option<string>)
    | TextBlock(typeName: BlockType, style: Option<string>, listItem: Option<string>,
                children: Option<seq<Span>>, markDefs: Option<seq<MarkDef>>)

  // ---------------------------------------------------------------------
  // Output

  /** One wrapping element that a mark puts around a span. */
  datatype Decoration =
    | Strong
    | Emphasis
    | InlineCode
    | ExternalLink(href: string)   // <a target="_blank" rel="noopener noreferrer">
    | InternalLink(href: string)   // <Link> of the router

  datatype RenderNode =
    | PlainText(text: string)                    // a bare string child
    | SpanText(text: string)                     // <span>{text}</span>
    | Decorated(decoration: Decoration, child: RenderNode)
    | Heading(level: nat, children: seq<RenderNode>)
    | Quote(children: seq<RenderNode>)
    | ListItem(children: seq<RenderNode>)
    | Paragraph(children: seq<RenderNode>)
    | Figure(altText: string, caption: Option<string>)
    | BulletList(items: seq<RenderNode>)
    | NumberedList(items: seq<RenderNode>)
    | Nothing                                    // `null`
    | Document(children: seq<RenderNode>)

  // ---------------------------------------------------------------------
  // Marks

  /** `markDefs.find(def => def._key === key)`. */
  function FindDef(defs: seq<MarkDef>, key: string): (r: Option<MarkDef>)
    ensures r.Some? ==> r.value in defs && r.value.key == key
    ensures r.None? <==> forall j :: 0 <= j < |defs| ==> defs[j].key != key
    ensures r.Some? ==> exists j :: 0 <= j < |defs| && defs[j] == r.value
                          && forall i :: 0 <= i < j ==> defs[i].key != key
  {
    if defs == [] then None
    else if defs[0].key == key then Some(defs[0])
    else
      var r := FindDef(defs[1..], key);
      if r.Some? then
        var j :| 0 <= j < |defs[1..]| && defs[1..][j] == r.value
                 && forall i :: 0 <= i < j ==> defs[1..][i].key != key;
        assert defs[j + 1] == r.value;
        r
      else r
  }

  /** The wrapper one mark key stands for, if it stands for any: the three
      decorator keys, or a key whose mark definition is a `link` with a
      non-empty `href`. */
  function ResolveMark(mark: string, defs: Option<seq<MarkDef>>): Option<Decoration> {
    if mark == "strong" then Some(Strong)
    else if mark == "em" then Some(Emphasis)
    else if mark == "code" then Some(InlineCode)
    else if defs.None? then None
    else
      match FindDef(defs.value, mark)
      case None => None
      case Some(def) =>
        if def.typeName == "link" && Truthy(def.href) then
          if StartsWith(def.href.value, "http") then Some(ExternalLink(def.href.value))
          else Some(InternalLink(def.href.value))
        else None
  }

  /** A link mark resolves to an external link exactly when its `href` starts
      with `http`, and to an internal link otherwise; a key without a `link`
      definition that has an `href` resolves to nothing. */
  lemma LinkResolution(mark: string, defs: seq<MarkDef>)
    requires mark != "strong" && mark != "em" && mark != "code"
    ensures var d := ResolveMark(mark, Some(defs));
            var def := FindDef(defs, mark);
            && (d.Some? <==> def.Some? && def.value.typeName == "link" && Truthy(def.value.href))
            && (d.Some? ==> (d.value.ExternalLink? <==> StartsWith(def.value.href.value, "http")))
            && (d.Some? ==> (d.value.ExternalLink? || d.value.InternalLink?)
                            && d.value.href == def.value.href.value)
  {
  }

  /** The element after applying `marks` in order to `base`: each recognised
      mark wraps everything applied before it. */
  function ApplyMarks(base: RenderNode, marks: seq<string>, defs: Option<seq<MarkDef>>): RenderNode
    decreases |marks|
  {
    if marks == [] then base
    else
      var inner := ApplyMarks(base, marks[..|marks| - 1], defs);
      match ResolveMark(marks[|marks| - 1], defs)
      case None => inner
      case Some(d) => Decorated(d, inner)
  }

  /** What `renderSpan` returns: the bare text for a span without marks, and
      the `<span>` wrapped by its marks otherwise. */
  function RenderedSpan(span: Span, defs: Option<seq<MarkDef>>): RenderNode {
    if span.marks.None? || span.marks.value == [] then PlainText(span.text)
    else ApplyMarks(SpanText(span.text), span.marks.value, defs)
  }

  /** `renderSpan`: start from `<span>{text}</span>` and reassign the element
      once per mark, in the order of the marks. */
  method RenderSpan(span: Span, defs: Option<seq<MarkDef>>) returns (element: RenderNode)
    ensures element == RenderedSpan(span, defs)
  {
    if span.marks.None? || |span.marks.value| == 0 {
      return PlainText(span.text);
    }
    var marks := span.marks.value;
    element := SpanText(span.text);
    for i := 0 to |marks|
      invariant element == ApplyMarks(SpanText(span.text), marks[..i], defs)
    {
      assert marks[..i + 1][..i] == marks[..i];
      var mark := marks[i];
      if mark == "strong" {
        element := Decorated(Strong, element);
      } else if mark == "em" {
        element := Decorated(Emphasis, element);
      } else if mark == "code" {
        element := Decorated(InlineCode, element);
      } else if defs.Some? {
        var linkMark := FindDef(defs.value, mark);
        if linkMark.Some? && linkMark.value.typeName == "link" && Truthy(linkMark.value.href) {
          var href := linkMark.value.href.value;
          if StartsWith(href, "http") {
            element := Decorated(ExternalLink(href), element);
          } else {
            element := Decorated(InternalLink(href), element);
          }
        }
      }
    }
    assert marks[..|marks|] == marks;
  }

  /** The decorations of the recognised marks, in input order. */
  function Decorations(marks: seq<string>, defs: Option<seq<MarkDef>>): seq<Decoration>
    decreases |marks|
  {
    if marks == [] then []
    else
      var init := Decorations(marks[..|marks| - 1], defs);
      match ResolveMark(marks[|marks| - 1], defs)
      case None => init
      case Some(d) => init + [d]
  }

  /** The wrappers around an inline element, innermost first. */
  function Layers(n: RenderNode): seq<Decoration> {
    if n.Decorated? then Layers(n.child) + [n.decoration] else []
  }

  /** The element inside all wrappers. */
  function Core(n: RenderNode): RenderNode {
    if n.Decorated? then Core(n.child) else n
  }

  /** Applying marks adds exactly one wrapper per recognised mark, in input
      order (so the last recognised mark is outermost), around the base. */
  lemma {:induction false} ApplyMarksLayers(base: RenderNode, marks: seq<string>, defs: Option<seq<MarkDef>>)
    requires !base.Decorated?
    ensures Layers(ApplyMarks(base, marks, defs)) == Decorations(marks, defs)
    ensures Core(ApplyMarks(base, marks, defs)) == base
    decreases |marks|
  {
    if marks != [] {
      ApplyMarksLayers(base, marks[..|marks| - 1], defs);
    }
  }

  /** A span with marks renders as its `<span>` wrapped once per recognised
      mark, innermost first; the outermost wrapper belongs to the last
      recognised mark. */
  lemma SpanNesting(span: Span, defs: Option<seq<MarkDef>>)
    requires span.marks.Some? && span.marks.value != []
    ensures Layers(RenderedSpan(span, defs)) == Decorations(span.marks.value, defs)
    ensures Core(RenderedSpan(span, defs)) == SpanText(span.text)
    ensures var ds := Decorations(span.marks.value, defs);
            ds != [] ==> RenderedSpan(span, defs).Decorated?
                         && RenderedSpan(span, defs).decoration == ds[|ds| - 1]
  {
    ApplyMarksLayers(SpanText(span.text), span.marks.value, defs);
  }

  /** A span without marks, or with an empty list of marks, is its bare text. */
  lemma UnmarkedSpanIsText(span: Span, defs: Option<seq<MarkDef>>)
    requires span.marks.None? || span.marks.value == []
    ensures RenderedSpan(span, defs) == PlainText(span.text)
  {
  }

  /** A mark that resolves to nothing can be dropped from anywhere in the
      list without changing the element. */
  lemma {:induction false} UnknownMarkIgnored(base: RenderNode, xs: seq<string>, m: string, ys: seq<string>,
                                              defs: Option<seq<MarkDef>>)
    requires ResolveMark(m, defs).None?
    ensures ApplyMarks(base, xs + [m] + ys, defs) == ApplyMarks(base, xs + ys, defs)
    decreases |ys|
  {
    if ys == [] {
      assert xs + [m] + ys == xs + [m];
      assert (xs + [m])[..|xs|] == xs;
      assert xs + ys == xs;
    } else {
      var ys' := ys[..|ys| - 1];
      UnknownMarkIgnored(base, xs, m, ys', defs);
      assert (xs + [m] + ys)[..|xs + [m] + ys| - 1] == xs + [m] + ys';
      assert (xs + ys)[..|xs + ys| - 1] == xs + ys';
    }
  }

  /** Marks nest in input order, not by a fixed precedence: `strong` then `em`
      and `em` then `strong` give different elements. */
  lemma MarkOrderMatters(text: string)
    ensures RenderedSpan(Span(text, Some(["strong", "em"])), None)
         == Decorated(Emphasis, Decorated(Strong, SpanText(text)))
    ensures RenderedSpan(Span(text, Some(["em", "strong"])), None)
         == Decorated(Strong, Decorated(Emphasis, SpanText(text)))
  {
    assert ["strong", "em"][..1] == ["strong"];
    assert ["em", "strong"][..1] == ["em"];
    assert ["strong"][..0] == [] && ["em"][..0] == [];
    assert ApplyMarks(SpanText(text), ["strong"], None) == Decorated(Strong, SpanText(text));
    assert ApplyMarks(SpanText(text), ["em"], None) == Decorated(Emphasis, SpanText(text));
  }

  // ---------------------------------------------------------------------
  // Block dispatch

  function RenderSpans(spans: seq<Span>, defs: Option<seq<MarkDef>>): (r: seq<RenderNode>)
    ensures |r| == |spans|
    ensures forall i :: 0 <= i < |spans| ==> r[i] == RenderedSpan(spans[i], defs)
  {
    seq(|spans|, i requires 0 <= i < |spans| => RenderedSpan(spans[i], defs))
  }

  /** `renderBlock`: images show their alt text (or `Blog image`) and a
      caption when one is given; a text block without children renders
      nothing; otherwise the style picks a heading or a quote, and failing
      that the list kind picks a list item, and failing that a paragraph. */
  function RenderBlock(c: Content): RenderNode {
    match c
    case Image(alt, caption) =>
      Figure(OrElse(alt, "Blog image"), if Truthy(caption) then caption else None)
    case TextBlock(_, style, listItem, children, defs) =>
      if children.None? then Nothing
      else
        var kids := RenderSpans(children.value, defs);
        if style == Some("h1") then Heading(1, kids)
        else if style == Some("h2") then Heading(2, kids)
        else if style == Some("h3") then Heading(3, kids)
        else if style == Some("h4") then Heading(4, kids)
        else if style == Some("blockquote") then Quote(kids)
        else if listItem == Some("bullet") || listItem == Some("number") then ListItem(kids)
        else Paragraph(kids)
  }


  /** The styles that select a heading. */
  predicate IsHeadingStyle(style: Option<string>) {
    style == Some("h1") || style == Some("h2") || style == Some("h3") || style == Some("h4")
  }

  /** Block dispatch: an image renders its alt text (or `Blog image`) and its
      caption only when that is non-empty; a text block without children
      renders nothing; otherwise one node holding one child per span, a
      heading of the style's level for `h1`..`h4`, a quote for `blockquote`,
      a list item for the `bullet` and `number` kinds under any other style,
      and a paragraph for everything else. */
  lemma BlockDispatch(c: Content)
    ensures c.Image? ==> RenderBlock(c).Figure?
                         && (Truthy(c.alt) ==> RenderBlock(c).altText == c.alt.value)
                         && (!Truthy(c.alt) ==> RenderBlock(c).altText == "Blog image")
                         && (RenderBlock(c).caption.Some? <==> Truthy(c.caption))
    ensures c.TextBlock? && c.children.None? ==> RenderBlock(c) == Nothing
    ensures c.TextBlock? && c.children.Some? ==>
      var r := RenderBlock(c);
      && (r.Heading? || r.Quote? || r.ListItem? || r.Paragraph?)
      && r.children == RenderSpans(c.children.value, c.markDefs)
      && (r.Heading? <==> IsHeadingStyle(c.style))
      && (r.Heading? ==> c.style == Some("h" + [DigitChar(r.level)]))
      && (r.Quote? <==> c.style == Some("blockquote"))
      && (r.ListItem? <==> !IsHeadingStyle(c.style) && c.style != Some("blockquote")
                           && (c.listItem == Some("bullet") || c.listItem == Some("number")))
  {
    assert "h" + [DigitChar(1)] == "h1" && "h" + [DigitChar(2)] == "h2";
    assert "h" + [DigitChar(3)] == "h3" && "h" + [DigitChar(4)] == "h4";
  }

  // ---------------------------------------------------------------------
  // List-run grouping

  /** A block that joins a list run: `_type == 'block'` with a truthy `listItem`. */
  predicate IsListBlock(c: Content) {
    c.TextBlock? && c.typeName == "block" && Truthy(c.listItem)
  }

  /** The list kind of a block (`bullet`, `number`, ...), empty for other blocks. */
  function Kind(c: Content): string {
    if c.TextBlock? && c.listItem.Some? then c.listItem.value else ""
  }

  /** An element of `groupedContent`: a single block or a list run. */
  datatype Group = Single(block: Content) | Run(items: seq<Content>)

  function Members(g: Group): seq<Content> {
    match g
    case Single(b) => [b]
    case Run(items) => items
  }

  /** The kind of a run is that of its first member. */
  function RunKind(g: Group): string {
    if g.Run? && |g.items| > 0 then Kind(g.items[0]) else ""
  }

  /** The blocks of the groups, each run expanded in place. */
  function Flatten(gs: seq<Group>): seq<Content> {
    if gs == [] then [] else Members(gs[0]) + Flatten(gs[1..])
  }

  /** A non-empty sequence of list blocks, all of the given kind. */
  predicate RunOf(items: seq<Content>, kind: string) {
    |items| > 0 && forall i :: 0 <= i < |items| ==> IsListBlock(items[i]) && Kind(items[i]) == kind
  }

  predicate GroupOk(g: Group) {
    match g
    case Single(b) => !IsListBlock(b)
    case Run(items) => RunOf(items, RunKind(g))
  }

  /** Two neighbouring runs are of different kinds. */
  predicate Separated(g: Group, h: Group) {
    g.Run? && h.Run? ==> RunKind(g) != RunKind(h)
  }

  predicate WellGrouped(gs: seq<Group>) {
    && (forall i :: 0 <= i < |gs| ==> GroupOk(gs[i]))
    && (forall i :: 0 <= i < |gs| - 1 ==> Separated(gs[i], gs[i + 1]))
  }

  /** `gs` groups `content`: expanding its runs gives back `content`, every
      run is a non-empty list of one kind, and neighbouring runs differ. */
  predicate IsGroupingOf(gs: seq<Group>, content: seq<Content>) {
    Flatten(gs) == content && WellGrouped(gs)
  }

  /** The grouping stated recursively, from the front of the content: a list
      block joins the run after it when that run is of its kind. */
  function Grouped(content: seq<Content>): seq<Group> {
    if content == [] then []
    else
      var rest := Grouped(content[1..]);
      var c := content[0];
      if !IsListBlock(c) then [Single(c)] + rest
      else if rest != [] && rest[0].Run? && RunKind(rest[0]) == Kind(c) then
        [Run([c] + rest[0].items)] + rest[1..]
      else [Run([c])] + rest
  }

  lemma {:induction false} FlattenSnoc(gs: seq<Group>, g: Group)
    ensures Flatten(gs + [g]) == Flatten(gs) + Members(g)
  {
    if gs == [] {
      assert [g][1..] == [];
    } else {
      assert (gs + [g])[1..] == gs[1..] + [g];
      FlattenSnoc(gs[1..], g);
    }
  }

  lemma WellGroupedTail(gs: seq<Group>)
    requires WellGrouped(gs) && gs != []
    ensures WellGrouped(gs[1..])
  {
    forall i | 0 <= i < |gs| - 2 ensures Separated(gs[1..][i], gs[1..][i + 1]) {
      assert Separated(gs[i + 1], gs[i + 2]);
    }
  }

  lemma WellGroupedCons(g: Group, gs: seq<Group>)
    requires GroupOk(g) && WellGrouped(gs) && (gs != [] ==> Separated(g, gs[0]))
    ensures WellGrouped([g] + gs)
  {
    var r := [g] + gs;
    forall i | 0 <= i < |r| - 1 ensures Separated(r[i], r[i + 1]) {
      if i > 0 { assert r[i] == gs[i - 1] && r[i + 1] == gs[i]; }
    }
  }

  lemma WellGroupedSnoc(gs: seq<Group>, g: Group)
    requires GroupOk(g) && WellGrouped(gs) && (gs != [] ==> Separated(gs[|gs| - 1], g))
    ensures WellGrouped(gs + [g])
  {
    var r := gs + [g];
    forall i | 0 <= i < |r| - 1 ensures Separated(r[i], r[i + 1]) {
      if i < |gs| - 1 { assert r[i] == gs[i] && r[i + 1] == gs[i + 1]; }
    }
  }

  lemma FlattenCons(g: Group, gs: seq<Group>)
    ensures Flatten([g] + gs) == Members(g) + Flatten(gs)
  {
    assert ([g] + gs)[1..] == gs;
  }

  /** Expanding the recursive grouping gives back its input. */
  lemma {:induction false} FlattenGrouped(content: seq<Content>)
    ensures Flatten(Grouped(content)) == content
  {
    if content != [] {
      var rest := Grouped(content[1..]);
      var c := content[0];
      var tail := content[1..];
      FlattenGrouped(tail);
      assert Flatten(rest) == tail;
      if !IsListBlock(c) {
        assert Grouped(content) == [Single(c)] + rest;
        FlattenCons(Single(c), rest);
      } else if rest != [] && rest[0].Run? && RunKind(rest[0]) == Kind(c) {
        var others := rest[1..];
        assert rest == [rest[0]] + others;
        FlattenCons(rest[0], others);
        assert Grouped(content) == [Run([c] + rest[0].items)] + others;
        FlattenCons(Run([c] + rest[0].items), others);
      } else {
        assert Grouped(content) == [Run([c])] + rest;
        FlattenCons(Run([c]), rest);
      }
      assert content == [c] + tail;
    }
  }

  /** The groups of the recursive grouping are well formed and separated. */
  lemma {:induction false} GroupedWell(content: seq<Content>)
    ensures WellGrouped(Grouped(content))
  {
    if content != [] {
      var rest := Grouped(content[1..]);
      var c := content[0];
      GroupedWell(content[1..]);
      if !IsListBlock(c) {
        WellGroupedCons(Single(c), rest);
      } else if rest != [] && rest[0].Run? && RunKind(rest[0]) == Kind(c) {
        var items := [c] + rest[0].items;
        var merged := Run(items);
        assert GroupOk(rest[0]);
        assert RunKind(merged) == Kind(c);
        forall i | 0 <= i < |items| ensures IsListBlock(items[i]) && Kind(items[i]) == Kind(c) {
          if i > 0 { assert items[i] == rest[0].items[i - 1]; }
        }
        WellGroupedTail(rest);
        assert |rest| > 1 ==> Separated(rest[0], rest[1]);
        WellGroupedCons(merged, rest[1..]);
      } else {
        WellGroupedCons(Run([c]), rest);
      }
    }
  }

  /** The recursive grouping is a grouping of its input. */
  lemma GroupedIsGrouping(content: seq<Content>)
    ensures IsGroupingOf(Grouped(content), content)
  {
    FlattenGrouped(content);
    GroupedWell(content);
  }

  /** Every grouping of a content sequence is the recursive one. */
  lemma {:induction false} GroupingIsGrouped(gs: seq<Group>, content: seq<Content>)
    requires IsGroupingOf(gs, content)
    ensures gs == Grouped(content)
    decreases |content|, 2
  {
    if gs != [] {
      var g := gs[0];
      assert GroupOk(g);
      assert content == Members(g) + Flatten(gs[1..]);
      if g.Single? || |g.items| == 1 {
        FirstGroupAlone(gs, content);
      } else {
        FirstGroupLonger(gs, content);
      }
    }
  }

  /** Induction step when the first group holds one block. */
  lemma {:induction false} FirstGroupAlone(gs: seq<Group>, content: seq<Content>)
    requires IsGroupingOf(gs, content) && gs != []
    requires gs[0].Single? || |gs[0].items| == 1
    ensures gs == Grouped(content)
    decreases |content|, 1
  {
    var g := gs[0];
    assert GroupOk(g);
    assert content == Members(g) + Flatten(gs[1..]);
    assert Members(g) == [content[0]];
    assert content[1..] == Flatten(gs[1..]);
    WellGroupedTail(gs);
    GroupingIsGrouped(gs[1..], content[1..]);
    assert gs == [g] + gs[1..];
    assert |gs| > 1 ==> Separated(gs[0], gs[1]);
    if g.Run? {
      assert g.items == [content[0]];
    }
  }

  /** Dropping the first block of a leading run of two or more blocks
      leaves a grouping of the rest of the content. */
  lemma ShortenFirstRun(gs: seq<Group>, content: seq<Content>)
    requires IsGroupingOf(gs, content) && gs != []
    requires gs[0].Run? && |gs[0].items| > 1
    ensures IsGroupingOf([Run(gs[0].items[1..])] + gs[1..], content[1..])
    ensures RunKind(Run(gs[0].items[1..])) == RunKind(gs[0])
  {
    var g := gs[0];
    var tail := Run(g.items[1..]);
    assert GroupOk(g);
    RunTailOk(g);
    assert gs == [g] + gs[1..];
    FlattenCons(g, gs[1..]);
    FlattenCons(tail, gs[1..]);
    WellGroupedTail(gs);
    assert |gs| > 1 ==> Separated(tail, gs[1]);
    WellGroupedCons(tail, gs[1..]);
  }

  /** A run of two or more blocks without its first block is a run of the same kind. */
  lemma RunTailOk(g: Group)
    requires g.Run? && |g.items| > 1 && GroupOk(g)
    ensures GroupOk(Run(g.items[1..])) && RunKind(Run(g.items[1..])) == RunKind(g)
  {
    var t := g.items[1..];
    assert t[0] == g.items[1];
    forall i | 0 <= i < |t| ensures IsListBlock(t[i]) && Kind(t[i]) == RunKind(g) {
      assert t[i] == g.items[i + 1];
    }
  }

  /** Induction step when the first group is a run of two blocks or more:
      the rest of that run, followed by the other groups, groups the tail. */
  lemma {:induction false} FirstGroupLonger(gs: seq<Group>, content: seq<Content>)
    requires IsGroupingOf(gs, content) && gs != []
    requires gs[0].Run? && |gs[0].items| > 1
    ensures gs == Grouped(content)
    decreases |content|, 1
  {
    var g := gs[0];
    var tail := Run(g.items[1..]);
    var rest := [tail] + gs[1..];
    ShortenFirstRun(gs, content);
    GroupingIsGrouped(rest, content[1..]);
    assert GroupOk(g);
    FlattenCons(g, gs[1..]);
    assert gs == [g] + gs[1..];
    var c := content[0];
    assert c == g.items[0];
    assert IsListBlock(c) && Kind(c) == RunKind(tail);
    assert rest[1..] == gs[1..];
    assert [c] + g.items[1..] == g.items;
  }

  /** A content sequence has exactly one grouping. */
  lemma GroupingUnique(g1: seq<Group>, g2: seq<Group>, content: seq<Content>)
    requires IsGroupingOf(g1, content) && IsGroupingOf(g2, content)
    ensures g1 == g2
  {
    GroupingIsGrouped(g1, content);
    GroupingIsGrouped(g2, content);
  }

  /** The state of the grouping loop after it has read `done`: the closed
      groups, then the run still open (with its kind). */
  predicate Pending(grouped: seq<Group>, currentList: seq<Content>, currentListType: Option<string>,
                    done: seq<Content>) {
    && Flatten(grouped) + currentList == done
    && WellGrouped(grouped)
    && (currentList == [] <==> currentListType == None)
    && (currentList != [] ==> RunOf(currentList, currentListType.value)
                              && Kind(currentList[0]) == currentListType.value)
    && (currentList != [] && grouped != [] ==> Separated(grouped[|grouped| - 1], Run(currentList)))
    && (currentList == [] ==> grouped == [] || grouped[|grouped| - 1].Single?)
  }

  /** The groups once the open run, if any, is closed: it is pushed onto
      the groups when it is non-empty. */
  function Closed(grouped: seq<Group>, currentList: seq<Content>): seq<Group> {
    if currentList != [] then grouped + [Run(currentList)] else grouped
  }

  lemma CloseRun(grouped: seq<Group>, currentList: seq<Content>, currentListType: Option<string>,
                 done: seq<Content>)
    requires Pending(grouped, currentList, currentListType, done)
    ensures IsGroupingOf(Closed(grouped, currentList), done)
  {
    if currentList != [] {
      FlattenSnoc(grouped, Run(currentList));
      WellGroupedSnoc(grouped, Run(currentList));
    }
  }

  lemma StepJoin(grouped: seq<Group>, currentList: seq<Content>, currentListType: Option<string>,
                 content: seq<Content>, i: int)
    requires 0 <= i < |content| && Pending(grouped, currentList, currentListType, content[..i])
    requires IsListBlock(content[i]) && content[i].listItem == currentListType
    ensures Pending(grouped, currentList + [content[i]], currentListType, content[..i + 1])
  {
    assert content[..i + 1] == content[..i] + [content[i]];
    var next := currentList + [content[i]];
    assert RunKind(Run(next)) == RunKind(Run(currentList));
  }

  lemma StepNewRun(grouped: seq<Group>, currentList: seq<Content>, currentListType: Option<string>,
                   content: seq<Content>, i: int)
    requires 0 <= i < |content| && Pending(grouped, currentList, currentListType, content[..i])
    requires IsListBlock(content[i]) && content[i].listItem != currentListType
    ensures Pending(Closed(grouped, currentList), [content[i]], content[i].listItem, content[..i + 1])
  {
    assert content[..i + 1] == content[..i] + [content[i]];
    CloseRun(grouped, currentList, currentListType, content[..i]);
  }

  lemma StepSingle(grouped: seq<Group>, currentList: seq<Content>, currentListType: Option<string>,
                   content: seq<Content>, i: int)
    requires 0 <= i < |content| && Pending(grouped, currentList, currentListType, content[..i])
    requires !IsListBlock(content[i])
    ensures Pending(Closed(grouped, currentList) + [Single(content[i])], [], None, content[..i + 1])
  {
    assert content[..i + 1] == content[..i] + [content[i]];
    var closed := Closed(grouped, currentList);
    CloseRun(grouped, currentList, currentListType, content[..i]);
    FlattenSnoc(closed, Single(content[i]));
    WellGroupedSnoc(closed, Single(content[i]));
  }

  /** After the last block, closing the open run gives the grouping. */
  lemma Finish(grouped: seq<Group>, currentList: seq<Content>, currentListType: Option<string>,
               content: seq<Content>)
    requires Pending(grouped, currentList, currentListType, content[..|content|])
    ensures IsGroupingOf(Closed(grouped, currentList), content)
    ensures Closed(grouped, currentList) == Grouped(content)
  {
    assert content[..|content|] == content;
    CloseRun(grouped, currentList, currentListType, content);
    GroupingIsGrouped(Closed(grouped, currentList), content);
  }

  /** The grouping loop: a list block continues the current run when its
      kind equals the current kind and starts a new run otherwise; any other
      block closes the current run and stands alone; the last run is closed
      at the end.  The result is the unique grouping of the content. */
  method GroupContent(content: seq<Content>) returns (grouped: seq<Group>)
    ensures IsGroupingOf(grouped, content)
    ensures grouped == Grouped(content)
  {
    grouped := [];
    var currentList: seq<Content> := [];
    var currentListType: Option<string> := None;
    for i := 0 to |content|
      invariant Pending(grouped, currentList, currentListType, content[..i])
    {
      var block := content[i];
      if IsListBlock(block) {
        var listType := block.listItem;
        if listType == currentListType {
          StepJoin(grouped, currentList, currentListType, content, i);
          currentList := currentList + [block];
        } else {
          StepNewRun(grouped, currentList, currentListType, content, i);
          grouped := Closed(grouped, currentList);
          currentList := [block];
          currentListType := listType;
        }
      } else {
        StepSingle(grouped, currentList, currentListType, content, i);
        grouped := Closed(grouped, currentList) + [Single(block)];
        currentList := [];
        currentListType := None;
      }
    }
    Finish(grouped, currentList, currentListType, content);
    grouped := Closed(grouped, currentList);
  }

  /** Grouping loses and reorders nothing: expanding the runs gives back the
      input; every run is non-empty and of one kind; neighbouring runs differ. */
  lemma GroupingProperties(content: seq<Content>)
    ensures Flatten(Grouped(content)) == content
    ensures forall i :: 0 <= i < |Grouped(content)| ==> GroupOk(Grouped(content)[i])
    ensures forall i :: 0 <= i < |Grouped(content)| - 1 ==>
      Separated(Grouped(content)[i], Grouped(content)[i + 1])
  {
    GroupedIsGrouping(content);
  }

  function TextItem(style: Option<string>, listItem: Option<string>): Content {
    TextBlock("block", style, listItem, Some([]), None)
  }

  /** `[bullet, bullet, normal, bullet]` gives three groups: a run of two, the
      lone block, and a new run of one (runs never merge across a break). */
  lemma BulletExample()
    ensures var b := TextItem(None, Some("bullet"));
            var p := TextItem(Some("normal"), None);
            Grouped([b, b, p, b]) == [Run([b, b]), Single(p), Run([b])]
  {
    var b := TextItem(None, Some("bullet"));
    var p := TextItem(Some("normal"), None);
    assert [b, b, p, b][1..] == [b, p, b];
    assert [b, p, b][1..] == [p, b];
    assert [p, b][1..] == [b];
    assert [b][1..] == [];
    assert IsListBlock(b) && !IsListBlock(p) && Kind(b) == "bullet";
    assert Grouped([b]) == [Run([b])];
    assert Grouped([p, b]) == [Single(p)] + [Run([b])] == [Single(p), Run([b])];
    assert Grouped([b, p, b]) == [Run([b])] + [Single(p), Run([b])];
    var rest := [Run([b]), Single(p), Run([b])];
    assert rest[0].Run? && RunKind(rest[0]) == Kind(b);
    assert rest[1..] == [Single(p), Run([b])];
    assert [b] + [b] == [b, b];
  }

  // ---------------------------------------------------------------------
  // Whole document

  /** A group renders as its block, or a run as a list: unordered when the
      first member's kind is `bullet`, ordered for any other kind. */
  function RenderGroup(g: Group): RenderNode {
    match g
    case Single(b) => RenderBlock(b)
    case Run(items) =>
      var rendered := seq(|items|, i requires 0 <= i < |items| => RenderBlock(items[i]));
      if |items| > 0 && items[0].TextBlock? && items[0].listItem == Some("bullet") then BulletList(rendered)
      else NumberedList(rendered)
  }

  /** The component's output: one node per group, in order. */
  function Render(content: seq<Content>): RenderNode {
    var gs := Grouped(content);
    Document(seq(|gs|, i requires 0 <= i < |gs| => RenderGroup(gs[i])))
  }

  /** A run renders as an unordered list exactly when its kind is `bullet`,
      as an ordered list otherwise, with one rendered block per member. */
  lemma RunRendering(items: seq<Content>)
    requires |items| > 0 && RunOf(items, Kind(items[0]))
    ensures RenderGroup(Run(items)).BulletList? <==> Kind(items[0]) == "bullet"
    ensures RenderGroup(Run(items)).NumberedList? <==> Kind(items[0]) != "bullet"
    ensures var r := RenderGroup(Run(items));
            |r.items| == |items| && forall i :: 0 <= i < |items| ==> r.items[i] == RenderBlock(items[i])
  {
  }

  /** The document holds one node per group of the grouping, in order, and
      its blocks, read run by run, are the content in order. */
  lemma RenderShape(content: seq<Content>)
    ensures Render(content).Document?
    ensures |Render(content).children| == |Grouped(content)|
    ensures forall i :: 0 <= i < |Grouped(content)| ==>
      Render(content).children[i] == RenderGroup(Grouped(content)[i])
  {
  }
}
