/** What a decode keeps: every character of the source with the marks it stood in, and every block
    as what its element says it is. Nothing here is said in the terms of the decoder. */
module NativeText {
  import opened Text
  import opened NativeFaults
  import opened NativeHtml
  import opened NoteDocument
  import opened NativeDecode
  import opened NativeInline

  // ---------- The characters of an element ----------

  /** The marks that an element puts on what it holds. */
  function MarksIn(tag: Tag, attrs: Attrs): set<Mark> {
    match tag
    case Strong => {Bold} case B => {Bold}
    case Em => {Italic} case I => {Italic}
    case U => {Underline}
    case S => {Mark.Strike} case Strike => {Mark.Strike} case Del => {Mark.Strike}
    case Code => {Mark.Code}
    case A => if "href" in attrs then {Link(attrs["href"])} else {}
    case _ => {}
  }

  /** An element around blocks or cells, where blank text is only layout. */
  predicate Loose(n: Node)
    requires n.Element?
  {
    || n.tag in {Root, Div, Tag.Blockquote, Ul, Ol, Tag.Table, Thead, Tbody, Tr, Pre}
    || (n.tag == Li && HoldsParagraph(n.children))
  }

  predicate HoldsParagraph(ns: seq<Node>) { exists i :: 0 <= i < |ns| && ns[i].Element? && ns[i].tag == P }

  /** Every character inside a node, with its marks; a line break is a newline. */
  function Shown(n: Node, marks: set<Mark>): seq<Glyph>
    decreases n, 0
  {
    match n
    case TextNode(_, value, _) => TextGlyphs(value, marks)
    case Element(tag, attrs, _, children, _, _, _) =>
      if tag.Br? then [Glyph('\n', marks)] else ShownAll(children, marks + MarksIn(tag, attrs), Loose(n))
  }

  function ShownAll(ns: seq<Node>, marks: set<Mark>, loose: bool): seq<Glyph>
    decreases ns, 1
  {
    if ns == [] then []
    else (if loose && ns[0].TextNode? && Blank(ns[0].value) then [] else Shown(ns[0], marks)) + ShownAll(ns[1..], marks, loose)
  }

  // ---------- Runs ----------

  /** The first mark of a kind stands for every mark of the kind. */
  lemma {:induction false} FirstsKeep(ms: seq<Mark>, x: Mark)
    requires x in ms
    ensures exists y :: y in FirstOfEach(ms) && Rank(y) == Rank(x)
    ensures forall y :: y in FirstOfEach(ms) ==> y in ms
  {
    hide Rank;
    var n := |ms| - 1;
    FirstsOnly(ms);
    if x in ms[..n] {
      FirstsKeep(ms[..n], x);
      var y :| y in FirstOfEach(ms[..n]) && Rank(y) == Rank(x);
      assert y in FirstOfEach(ms);
    } else {
      assert x == ms[n];
      if i :| 0 <= i < n && Rank(ms[i]) == Rank(ms[n]) {
        assert ms[i] in ms[..n];
        FirstsKeep(ms[..n], ms[i]);
        var y :| y in FirstOfEach(ms[..n]) && Rank(y) == Rank(ms[i]);
        assert y in FirstOfEach(ms);
      } else {
        assert x in FirstOfEach(ms);
      }
    }
  }

  lemma {:induction false} FirstsOnly(ms: seq<Mark>)
    ensures forall y :: y in FirstOfEach(ms) ==> y in ms
  {
    hide Rank;
    if ms != [] { FirstsOnly(ms[..|ms| - 1]); }
  }

  lemma CanonMarkSet(ms: seq<Mark>)
    requires DistinctMarks(ms)
    ensures MarkSet(CanonMarks(ms)) == MarkSet(ms)
  {
    hide Rank, SortedMarks, FirstOfEach, Sorted;
    SortSorts(ms);
    var sorted := SortedMarks(ms);
    FirstsOnly(sorted);
    forall x | x in ms ensures x in FirstOfEach(sorted) {
      FirstsKeep(sorted, x);
      var y :| y in FirstOfEach(sorted) && Rank(y) == Rank(x);
      var i, j :| 0 <= i < |ms| && ms[i] == x && 0 <= j < |ms| && ms[j] == y;
    }
  }

  lemma {:induction false} PushGlyphs(rs: seq<Inline>, text: string, ms: seq<Mark>)
    ensures RunGlyphs(PushRun(rs, text, ms)) == RunGlyphs(rs) + TextGlyphs(text, MarkSet(ms))
  {
    hide TextGlyphs, RunGlyphs, MarkSet;
    if text == "" {
      NoGlyphs(MarkSet(ms));
    } else if rs != [] && MarksOf(rs[|rs| - 1]) == ms {
      var before, last := rs[..|rs| - 1], rs[|rs| - 1];
      var longer := last.(text := last.text + text);
      assert rs == before + [last] && PushRun(rs, text, ms) == before + [longer];
      RunGlyphsOf(before, [last]);
      RunGlyphsOf(before, [longer]);
      OneRunGlyphs(last);
      OneRunGlyphs(longer);
      TextGlyphsOf(last.text, text, MarkSet(ms));
    } else {
      RunGlyphsOf(rs, [MarkedRun(text, ms)]);
      OneRunGlyphs(MarkedRun(text, ms));
      assert MarksOf(MarkedRun(text, ms)) == ms;
    }
  }

  ghost predicate AllDistinct(rs: seq<Inline>) { forall i :: 0 <= i < |rs| ==> DistinctMarks(MarksOf(rs[i])) }

  lemma {:induction false} DuplicatesNone(rs: seq<Inline>)
    requires DuplicateTrace(rs).Clean()
    ensures AllDistinct(rs)
  {
    hide DistinctMarks;
    if rs != [] {
      DuplicatesNone(rs[1..]);
      assert forall i :: 0 < i < |rs| ==> rs[i] == rs[1..][i - 1];
    }
  }

  lemma {:induction false} CanonGlyphs(rs: seq<Inline>)
    requires AllDistinct(rs)
    ensures RunGlyphs(CanonRuns(rs)) == RunGlyphs(rs)
  {
    hide PushRun, FirstOfEach, SortedMarks, DistinctMarks, TextGlyphs, RunGlyphs, MarkSet;
    if rs == [] {
    } else {
      var before, last := rs[..|rs| - 1], rs[|rs| - 1];
      assert rs == before + [last];
      CanonGlyphs(before);
      PushGlyphs(CanonRuns(before), last.text, CanonMarks(MarksOf(last)));
      CanonMarkSet(MarksOf(last));
      RunGlyphsOf(before, [last]);
      OneRunGlyphs(last);
    }
  }

  // ---------- Inline content ----------

  lemma {:induction false} InlineShown(env: Env, n: Node, ms: seq<Mark>)
    requires var d := InlineNode(env, n, ms); d.trace.Clean() && d.value.Some?
    ensures RunGlyphs(InlineNode(env, n, ms).value.value) == Shown(n, MarkSet(ms))
    ensures !(n.Element? && n.tag == P)
    decreases n, 0
  {
    hide UrlTrace, Inlines, ShownAll, TextGlyphs, RunGlyphs;
    match n
    case TextNode(_, value, _) =>
      NoGlyphs(MarkSet(ms));
      if value == "" { NoRunGlyphs(); }
      else { OneRunGlyphs(MarkedRun(value, ms)); }
    case Element(tag, attrs, _, children, _, _, _) =>
      if tag.Br? {
        OneRunGlyphs(MarkedRun("\n", ms));
        NoGlyphs(MarkSet(ms));
      } else {
        var m := if tag.A? then Link(attrs["href"]) else MarkOf(tag).value;
        InlinesShown(env, children, ms + [m]);
        assert MarkSet(ms + [m]) == MarkSet(ms) + MarksIn(tag, attrs);
        TightLoose(n);
      }
  }

  lemma NoRunGlyphs()
    ensures RunGlyphs([]) == []
  {
  }

  lemma TightLoose(n: Node)
    requires n.Element? && (n.tag.A? || MarkOf(n.tag).Some?)
    ensures !Loose(n)
  {
  }

  lemma {:induction false} InlineNodesShown(env: Env, ns: seq<Node>, ms: seq<Mark>)
    requires var d := InlineNodes(env, ns, ms); d.trace.Clean() && d.value.Some?
    ensures RunGlyphs(InlineNodes(env, ns, ms).value.value) == ShownAll(ns, MarkSet(ms), false)
    ensures !HoldsParagraph(ns)
    decreases ns, 1
  {
    hide InlineNode, Shown, RunGlyphs, MarkSet, Trace.Then;
    if ns == [] {
      NoRunGlyphs();
    } else {
      var head, tail := InlineNode(env, ns[0], ms), InlineNodes(env, ns[1..], ms);
      InlineShown(env, ns[0], ms);
      InlineNodesShown(env, ns[1..], ms);
      RunGlyphsOf(head.value.value, tail.value.value);
      assert forall i :: 0 < i < |ns| ==> ns[i] == ns[1..][i - 1];
    }
  }

  /** Inline content is decoded with every character and all its marks. */
  lemma {:induction false} InlinesShown(env: Env, ns: seq<Node>, ms: seq<Mark>)
    requires var d := Inlines(env, ns, ms); d.trace.Clean() && d.value.Some?
    ensures RunGlyphs(Inlines(env, ns, ms).value.value) == ShownAll(ns, MarkSet(ms), false)
    ensures !HoldsParagraph(ns)
    decreases ns, 2
  {
    hide InlineNodes, ShownAll, DuplicateTrace, CanonRuns, RunGlyphs, MarkSet, Trace.Then;
    var d := InlineNodes(env, ns, ms);
    InlineNodesShown(env, ns, ms);
    DuplicatesNone(d.value.value);
    CanonGlyphs(d.value.value);
  }

  // ---------- What a decode keeps ----------

  /** A list item holds the characters of its element. */
  predicate ItemKept(n: Node, item: ListItem) { item.Item? && n.Element? && n.tag == Li && RunGlyphs(item.inlines) == Shown(n, {}) }

  /** The nodes are blank text and one item's element after the other. */
  predicate ItemsKept(ns: seq<Node>, items: seq<ListItem>) {
    if ns == [] then items == []
    else if ns[0].TextNode? then Blank(ns[0].value) && ItemsKept(ns[1..], items)
    else items != [] && ItemKept(ns[0], items[0]) && ItemsKept(ns[1..], items[1..])
  }

  /** The element has a class besides the one that all items have. */
  predicate Ticked(n: Node)
    requires n.Element?
  {
    exists c :: c in Classes(n) && c != "checklist--item" && c != "simple-checklist--item"
  }

  predicate TextBlank(ns: seq<Node>) { forall i :: 0 <= i < |ns| && ns[i].TextNode? ==> Blank(ns[i].value) }

  /** A task's element: a paragraph with its characters, and perhaps the list of its own tasks. */
  predicate TaskKept(n: Node, task: TaskItem)
    decreases task, 0
  {
    && n.Element? && n.tag == Li && TextBlank(n.children) && (task.checked <==> Ticked(n))
    && var kids := ElementsOf(n.children);
       && 1 <= |kids| <= 2 && kids[0].tag == P && RunGlyphs(task.inlines) == Shown(kids[0], {})
       && if |kids| == 1 then task.children == [] else kids[1].tag == Ul && TasksKept(kids[1].children, task.children)
  }

  predicate TasksKept(ns: seq<Node>, tasks: seq<TaskItem>)
    decreases tasks, |ns|
  {
    if ns == [] then tasks == []
    else if ns[0].TextNode? then Blank(ns[0].value) && TasksKept(ns[1..], tasks)
    else tasks != [] && TaskKept(ns[0], tasks[0]) && TasksKept(ns[1..], tasks[1..])
  }

  /** The rows of a table, in its sections or without them. */
  function Trs(ns: seq<Node>): seq<Node> {
    if ns == [] then []
    else (if ns[0].TextNode? then [] else if ns[0].tag == Tr then [ns[0]] else ElementsOf(ns[0].children)) + Trs(ns[1..])
  }

  predicate CellsKept(ns: seq<Node>, cells: seq<string>, tag: Tag) {
    if ns == [] then cells == []
    else if ns[0].TextNode? then Blank(ns[0].value) && CellsKept(ns[1..], cells, tag)
    else
      && cells != [] && ns[0].tag == tag && Shown(ns[0], {}) == TextGlyphs(cells[0], {})
      && CellsKept(ns[1..], cells[1..], tag)
  }

  predicate RowsKept(rows: seq<Node>, cells: seq<seq<string>>, tag: Tag) {
    if rows == [] then cells == []
    else
      && cells != [] && rows[0].Element? && rows[0].tag == Tr && CellsKept(rows[0].children, cells[0], tag)
      && RowsKept(rows[1..], cells[1..], Td)
  }

  predicate TableKept(n: Node, columns: seq<string>, rows: seq<seq<string>>)
    requires n.Element?
  {
    && TextBlank(n.children)
    && (forall i :: 0 <= i < |n.children| && n.children[i].Element? && n.children[i].tag != Tr ==>
          n.children[i].tag in {Thead, Tbody} && TextBlank(n.children[i].children))
    && RowsKept(Trs(n.children), [columns] + rows, Th)
  }

  /** A block is what its element says, with all its characters. */
  predicate LeafKept(n: Node, b: Block)
    requires n.Element?
  {
    match b
    case Paragraph(inlines) => n.tag == P && RunGlyphs(inlines) == Shown(n, {})
    case Heading(level, inlines) =>
      (n.tag == if level == 1 then H1 else if level == 2 then H2 else H3) && 1 <= level <= 3 && RunGlyphs(inlines) == Shown(n, {})
    case BulletList(items) => n.tag == Ul && ItemsKept(n.children, items)
    case OrderedList(items) => n.tag == Ol && ItemsKept(n.children, items)
    case TaskList(kind, title, tasks) =>
      && n.tag == Ul && TasksKept(n.children, tasks) && "class" in n.attrs
      && n.attrs["class"] == (if kind == Some(RichTaskList) then "checklist" else "simple-checklist") && kind.Some?
      && (if title.Some? then title.value != "" && "data-title" in n.attrs && n.attrs["data-title"] == title.value
          else "data-title" in n.attrs ==> n.attrs["data-title"] == "")
    case CodeBlock(text, language) =>
      && n.tag == Pre && Shown(n, {}) == TextGlyphs(text, {Mark.Code})
      && exists code :: code in n.children && code.Element? && code.tag == Tag.Code
                        && if language.Some? then "class" in code.attrs && code.attrs["class"] == "language-" + language.value
                           else "class" !in code.attrs
    case Table(columns, rows) => n.tag == Tag.Table && TableKept(n, columns, rows)
    case HorizontalRule => n.tag == Hr && n.children == []
    case _ => false
  }

  // ---------- Lists ----------

  lemma LooseParts(ns: seq<Node>, marks: set<Mark>)
    requires forall i :: 0 <= i < |ns| ==> ns[i].TextNode? && Blank(ns[i].value)
    ensures ShownAll(ns, marks, true) == []
  {
    hide Blank;
    if ns != [] {
      assert forall i :: 0 < i < |ns| ==> ns[i] == ns[1..][i - 1];
      LooseParts(ns[1..], marks);
    }
  }

  lemma {:induction false} NoElements(ns: seq<Node>)
    requires ElementsOf(ns) == []
    ensures forall i :: 0 <= i < |ns| ==> ns[i].TextNode?
  {
    if ns != [] {
      NoElements(ns[1..]);
      assert forall i :: 0 < i < |ns| ==> ns[i] == ns[1..][i - 1];
    }
  }

  lemma {:induction false} ItemShown(env: Env, li: Node)
    requires li.Element? && var d := ItemOf(env, li); d.trace.Clean() && d.value.Some?
    ensures ItemKept(li, ItemOf(env, li).value.value)
  {
    hide Inlines, Unstyled, Blank, Shown, ShownAll;
    var ns := li.children;
    assert MarkSet([]) == {};
    if ns != [] && ns[0].Element? && ns[0].tag.P? {
      InlinesShown(env, ns[0].children, []);
      NoElements(ns[1..]);
      assert HoldsParagraph(ns);
      ParagraphShown(ns[0], {});
      LooseParts(ns[1..], {});
      LooseShown(li, ns[0]);
    } else {
      InlinesShown(env, ns, []);
      TightShown(li);
    }
  }

  lemma ParagraphShown(p: Node, marks: set<Mark>)
    requires p.Element? && (p.tag == P || p.tag in {H1, H2, H3})
    ensures Shown(p, marks) == ShownAll(p.children, marks, false)
  {
    assert marks + {} == marks;
  }

  lemma TightShown(li: Node)
    requires li.Element? && li.tag == Li && !HoldsParagraph(li.children)
    ensures Shown(li, {}) == ShownAll(li.children, {}, false)
  {
    var none: set<Mark> := {};
    assert none + none == none;
  }

  lemma {:induction false} LooseShown(li: Node, p: Node)
    requires li.Element? && li.tag == Li && HoldsParagraph(li.children) && li.children[0] == p && p.Element?
    requires ShownAll(li.children[1..], {}, true) == []
    ensures Shown(li, {}) == Shown(p, {})
  {
    var none: set<Mark> := {};
    assert none + none == none;
  }

  lemma {:induction false} ItemsShown(env: Env, ns: seq<Node>)
    requires TextBlank(ns) && var d := ItemsOf(env, ns); d.trace.Clean() && d.value.Some?
    ensures ItemsKept(ns, ItemsOf(env, ns).value.value)
  {
    hide ItemOf, ItemKept, Blank, Trace.Then;
    if ns != [] {
      assert TextBlank(ns[1..]) by { TextBlankRest(ns); }
      ItemsShown(env, ns[1..]);
      if ns[0].Element? { ItemShown(env, ns[0]); }
    }
  }

  lemma TextBlankRest(ns: seq<Node>)
    requires TextBlank(ns) && ns != []
    ensures TextBlank(ns[1..]) && (ns[0].TextNode? ==> Blank(ns[0].value))
  {
    hide Blank;
    assert forall i :: 0 < i < |ns| ==> ns[i] == ns[1..][i - 1];
  }

  lemma NoStray(ns: seq<Node>)
    ensures TextBlank(ns) <==> !StrayText(ns)
  {
    hide Blank;
  }

  lemma TickedRead(li: Node, k: ListKind)
    requires li.Element? && ItemClasses(li, k)
    ensures Ticked(li) <==> "checked" in Classes(li) || "checked--item" in Classes(li)
  {
    hide Classes, ItemClassText;
    assert KindClass(k) + "--item" == if k.RichTaskList? then "checklist--item" else "simple-checklist--item";
  }

  lemma {:induction false} TaskShown(env: Env, li: Node, k: ListKind)
    requires li.Element? && var d := TaskOf(env, li, k); d.trace.Clean() && d.value.Some?
    ensures TaskKept(li, TaskOf(env, li, k).value.value)
    decreases li, 0
  {
    hide Inlines, TasksIn, Unstyled, StrayText, Blank, Shown, ShownAll, Classes, ItemClasses, Ticked, TasksKept, Trace.Then, RunGlyphs;
    var kids := ElementsOf(li.children);
    assert kids[0] in kids && kids[0] in li.children;
    NoStray(li.children);
    TickedRead(li, k);
    assert MarkSet([]) == {};
    InlinesShown(env, kids[0].children, []);
    ParagraphShown(kids[0], {});
    if |kids| == 2 {
      assert kids[1] in kids && kids[1] in li.children;
      TasksInShown(env, kids[1], k, false);
      KindUl(kids[1]);
    }
  }

  lemma KindUl(n: Node)
    requires n.Element? && KindOf(n).Some?
    ensures n.tag == Ul
    ensures "class" in n.attrs && n.attrs["class"] == if KindOf(n) == Some(RichTaskList) then "checklist" else "simple-checklist"
  {
  }

  lemma {:induction false} TasksInShown(env: Env, n: Node, k: ListKind, allowTitle: bool)
    requires n.Element? && var d := TasksIn(env, n, k, allowTitle); d.trace.Clean() && d.value.Some?
    ensures TasksKept(n.children, TasksIn(env, n, k, allowTitle).value.value)
    decreases n, 1
  {
    hide TasksOf, Unstyled, StrayText, TasksKept;
    NoStray(n.children);
    TasksShown(env, n.children, k);
  }

  lemma {:induction false} TasksShown(env: Env, ns: seq<Node>, k: ListKind)
    requires TextBlank(ns) && var d := TasksOf(env, ns, k); d.trace.Clean() && d.value.Some?
    ensures TasksKept(ns, TasksOf(env, ns, k).value.value)
    decreases ns, 1
  {
    hide TaskOf, TaskKept, Blank, Trace.Then;
    if ns != [] {
      assert TextBlank(ns[1..]) by { TextBlankRest(ns); }
      TasksShown(env, ns[1..], k);
      if ns[0].Element? { TaskShown(env, ns[0], k); }
    }
  }

  // ---------- Tables and code ----------

  lemma {:induction false} JoinShown(ns: seq<Node>, marks: set<Mark>)
    requires TextOnlyChildren(ns)
    ensures ShownAll(ns, marks, false) == TextGlyphs(JoinText(ns), marks)
  {
    hide TextGlyphs;
    if ns == [] {
      NoGlyphs(marks);
    } else {
      assert forall i :: 0 < i < |ns| ==> ns[i] == ns[1..][i - 1];
      JoinShown(ns[1..], marks);
      TextGlyphsOf(ns[0].value, JoinText(ns[1..]), marks);
    }
  }

  lemma {:induction false} TextOnlyShown(n: Node)
    requires n.Element? && n.tag in {Th, Td, P} && TextOnly(n).Some?
    ensures Shown(n, {}) == TextGlyphs(TextOnly(n).value, {})
  {
    hide ShownAll, TextGlyphs, JoinText;
    CellShown(n);
    if |n.children| == 1 && n.children[0].Element? && n.children[0].tag.P? {
      TextOnlyShown(n.children[0]);
      OneShown(n.children[0], {}, false);
      assert n.children == [n.children[0]];
    } else {
      JoinShown(n.children, {});
    }
  }

  lemma CellShown(n: Node)
    requires n.Element? && n.tag in {Th, Td, P}
    ensures Shown(n, {}) == ShownAll(n.children, {}, false)
  {
    var none: set<Mark> := {};
    assert none + none == none;
  }

  lemma {:induction false} OneShown(n: Node, marks: set<Mark>, loose: bool)
    requires n.Element?
    ensures ShownAll([n], marks, loose) == Shown(n, marks)
  {
    hide Shown;
    var rest := [n][1..];
    assert rest == [] && ShownAll(rest, marks, loose) == [];
  }

  lemma {:induction false} CellsShown(ns: seq<Node>, header: bool)
    requires TextBlank(ns) && CellsOf(ns, header).Some?
    ensures CellsKept(ns, CellsOf(ns, header).value, if header then Th else Td)
  {
    hide TextOnly, Blank, Shown, TextGlyphs;
    if ns != [] {
      TextBlankRest(ns);
      CellsShown(ns[1..], header);
      if ns[0].Element? && TextOnly(ns[0]).Some? && ns[0].tag in {Th, Td} { TextOnlyShown(ns[0]); }
    }
  }

  lemma {:induction false} RowsShown(rows: seq<Node>, header: bool)
    requires RowCells(rows, header).Some?
    ensures RowsKept(rows, RowCells(rows, header).value, if header then Th else Td)
  {
    hide CellsOf, CellsKept, StrayText, Unstyled, TextBlank;
    if rows != [] {
      RowsShown(rows[1..], false);
      NoStray(rows[0].children);
      CellsShown(rows[0].children, header);
    }
  }

  lemma {:induction false} RowsAre(ns: seq<Node>)
    requires RowsOf(ns).Some?
    ensures RowsOf(ns).value == Trs(ns)
    ensures forall i :: 0 <= i < |ns| && ns[i].Element? && ns[i].tag != Tr ==> ns[i].tag in {Thead, Tbody} && TextBlank(ns[i].children)
  {
    hide Unstyled, StrayText, ElementsOf, TextBlank;
    if ns != [] {
      RowsAre(ns[1..]);
      if ns[0].Element? { NoStray(ns[0].children); }
      assert forall i :: 0 < i < |ns| ==> ns[i] == ns[1..][i - 1];
    }
  }

  lemma TableShown(n: Node)
    requires n.Element? && TableOf(n).Some?
    ensures TableOf(n).value.Table? && TableKept(n, TableOf(n).value.columns, TableOf(n).value.rows)
  {
    hide RowsOf, RowCells, StrayText, Unstyled, EvenRows, Trs, RowsKept, TextBlank;
    NoStray(n.children);
    RowsAre(n.children);
    var rows := RowsOf(n.children).value;
    RowsShown(rows, true);
    var cells := RowCells(rows, true).value;
    assert [cells[0]] + cells[1..] == cells;
  }

  lemma {:induction false} LooseAll(ns: seq<Node>, marks: set<Mark>)
    requires TextBlank(ns)
    ensures ShownAll(ns, marks, true) == ShownAll(ElementsOf(ns), marks, true)
  {
    hide Blank, Shown;
    if ns != [] {
      TextBlankRest(ns);
      LooseAll(ns[1..], marks);
      if ns[0].Element? {
        assert ElementsOf(ns) == [ns[0]] + ElementsOf(ns[1..]);
        assert ElementsOf(ns)[1..] == ElementsOf(ns[1..]);
      } else {
        assert ElementsOf(ns) == ElementsOf(ns[1..]);
      }
    }
  }

  lemma CodeParts(n: Node) returns (code: Node)
    requires n.Element? && CodeOf(n).Some?
    ensures ElementsOf(n.children) == [code] && code.Element? && code.tag == Tag.Code && TextBlank(n.children) && code in n.children
    ensures TextOnlyChildren(code.children) && CodeOf(n).value.CodeBlock? && CodeOf(n).value.text == JoinText(code.children)
    ensures var language := CodeOf(n).value.language;
            if language.Some? then "class" in code.attrs && code.attrs["class"] == "language-" + language.value
            else "class" !in code.attrs
  {
    hide StrayText, Unstyled, JoinText, LanguageText, TextBlank;
    NoStray(n.children);
    code := ElementsOf(n.children)[0];
    assert code in ElementsOf(n.children);
    if "class" in code.attrs { assert code.attrs["class"] == "language-" + code.attrs["class"][9..]; }
  }

  lemma CodeShown(n: Node)
    requires n.Element? && n.tag == Pre && CodeOf(n).Some?
    ensures CodeOf(n).value.CodeBlock? && LeafKept(n, CodeOf(n).value)
  {
    hide CodeOf, ElementsOf, Shown, ShownAll, JoinText, TextOnlyChildren, TextBlank, TextGlyphs, ItemsKept, TasksKept, TableKept, RunGlyphs;
    var code := CodeParts(n);
    LooseAll(n.children, {});
    OneShown(code, {}, true);
    JoinShown(code.children, {Mark.Code});
    PreShown(n);
    CodeInside(code);
  }

  lemma PreShown(n: Node)
    requires n.Element? && n.tag == Pre
    ensures Shown(n, {}) == ShownAll(n.children, {}, true)
  {
    var none: set<Mark> := {};
    assert none + none == none;
  }

  lemma CodeInside(n: Node)
    requires n.Element? && n.tag == Tag.Code
    ensures Shown(n, {}) == ShownAll(n.children, {Mark.Code}, false)
  {
    var none: set<Mark> := {};
    assert none + {Mark.Code} == {Mark.Code};
  }

  // ---------- Attributes ----------

  /** Nothing on the element says how it looks, but what a rule has by itself. */
  predicate Undressed(n: Node)
    requires n.Element?
  {
    && ("style" in n.attrs ==> n.tag == Hr) && "dir" !in n.attrs && (n.tag == P ==> "id" !in n.attrs)
    && (n.tag in {Strong, B, Em, I, U, S, Tag.Strike, Del, Br, Th, Td} ==> n.attrs == map[])
    && (n.tag == A ==> n.attrs.Keys == {"href"})
  }

  /** Nor on any element inside it. */
  predicate Plain(n: Node)
    decreases n, 0
  {
    n.Element? ==> Undressed(n) && (n.tag == Br || PlainAll(n.children))
  }

  predicate PlainAll(ns: seq<Node>)
    decreases ns, 1
  {
    ns != [] ==> Plain(ns[0]) && PlainAll(ns[1..])
  }

  lemma {:induction false} PlainEach(ns: seq<Node>)
    requires forall i :: 0 <= i < |ns| ==> Plain(ns[i])
    ensures PlainAll(ns)
  {
    hide Plain;
    if ns != [] {
      assert forall i :: 0 <= i < |ns[1..]| ==> ns[1..][i] == ns[i + 1];
      PlainEach(ns[1..]);
    }
  }

  lemma {:induction false} PlainElements(ns: seq<Node>)
    requires PlainAll(ElementsOf(ns))
    ensures PlainAll(ns)
  {
    hide Undressed;
    if ns != [] {
      if ns[0].Element? {
        assert ElementsOf(ns) == [ns[0]] + ElementsOf(ns[1..]);
        assert ElementsOf(ns)[1..] == ElementsOf(ns[1..]);
      } else {
        assert ElementsOf(ns) == ElementsOf(ns[1..]);
      }
      PlainElements(ns[1..]);
    }
  }

  lemma {:induction false} InlinePlain(env: Env, n: Node, ms: seq<Mark>)
    requires var d := InlineNode(env, n, ms); d.trace.Clean() && d.value.Some?
    ensures Plain(n)
    decreases n, 0
  {
    hide UrlTrace, Inlines, PlainAll;
    if n.Element? && !n.tag.Br? {
      var m := if n.tag.A? then Link(n.attrs["href"]) else MarkOf(n.tag).value;
      InlinesPlain(env, n.children, ms + [m]);
    }
  }

  lemma {:induction false} InlineNodesPlain(env: Env, ns: seq<Node>, ms: seq<Mark>)
    requires var d := InlineNodes(env, ns, ms); d.trace.Clean() && d.value.Some?
    ensures PlainAll(ns)
    decreases ns, 1
  {
    hide InlineNode, Plain, Trace.Then;
    if ns != [] {
      InlinePlain(env, ns[0], ms);
      InlineNodesPlain(env, ns[1..], ms);
    }
  }

  lemma {:induction false} InlinesPlain(env: Env, ns: seq<Node>, ms: seq<Mark>)
    requires var d := Inlines(env, ns, ms); d.trace.Clean() && d.value.Some?
    ensures PlainAll(ns)
    decreases ns, 2
  {
    hide InlineNodes, PlainAll, DuplicateTrace, CanonRuns, Trace.Then;
    InlineNodesPlain(env, ns, ms);
  }

  lemma UnstyledPlain(n: Node)
    requires n.Element? && Unstyled(n) && n.tag !in {Strong, B, Em, I, U, S, Tag.Strike, Del, Br, Th, Td, A} && PlainAll(n.children)
    ensures Plain(n)
  {
    hide PlainAll;
  }

  lemma {:induction false} TextsPlain(ns: seq<Node>)
    requires forall i :: 0 <= i < |ns| ==> ns[i].TextNode?
    ensures PlainAll(ns)
  {
    if ns != [] {
      assert forall i :: 0 <= i < |ns[1..]| ==> ns[1..][i] == ns[i + 1];
      TextsPlain(ns[1..]);
    }
  }

  lemma {:induction false} ItemPlain(env: Env, li: Node)
    requires li.Element? && var d := ItemOf(env, li); d.trace.Clean() && d.value.Some?
    ensures Plain(li)
  {
    hide Inlines, Unstyled, StrayText, PlainAll, Plain, ElementsOf;
    var ns := li.children;
    if ns != [] && ns[0].Element? && ns[0].tag.P? {
      InlinesPlain(env, ns[0].children, []);
      UnstyledPlain(ns[0]);
      NoElements(ns[1..]);
      TextsPlain(ns[1..]);
      FirstPlain(ns);
    } else {
      InlinesPlain(env, ns, []);
    }
    UnstyledPlain(li);
  }

  lemma FirstPlain(ns: seq<Node>)
    requires ns != [] && Plain(ns[0]) && PlainAll(ns[1..])
    ensures PlainAll(ns)
  {
    hide Plain;
  }

  lemma {:induction false} ItemsPlain(env: Env, ns: seq<Node>)
    requires var d := ItemsOf(env, ns); d.trace.Clean() && d.value.Some?
    ensures PlainAll(ns)
  {
    hide ItemOf, Undressed, Trace.Then;
    if ns != [] {
      ItemsPlain(env, ns[1..]);
      if ns[0].Element? { ItemPlain(env, ns[0]); }
    }
  }

  lemma {:induction false} TaskPlain(env: Env, li: Node, k: ListKind)
    requires li.Element? && var d := TaskOf(env, li, k); d.trace.Clean() && d.value.Some?
    ensures Plain(li)
    decreases li, 0
  {
    hide Inlines, TasksIn, Unstyled, StrayText, ItemClasses, Plain, PlainAll, Trace.Then, Classes;
    var kids := ElementsOf(li.children);
    assert kids[0] in kids && kids[0] in li.children;
    InlinesPlain(env, kids[0].children, []);
    UnstyledPlain(kids[0]);
    if |kids| == 2 {
      assert kids[1] in kids && kids[1] in li.children;
      KindUl(kids[1]);
      TasksInPlain(env, kids[1], k, false);
    }
    PlainEach(kids);
    PlainElements(li.children);
    UnstyledPlain(li);
  }

  lemma {:induction false} TasksInPlain(env: Env, n: Node, k: ListKind, allowTitle: bool)
    requires n.Element? && n.tag == Ul && var d := TasksIn(env, n, k, allowTitle); d.trace.Clean() && d.value.Some?
    ensures Plain(n)
    decreases n, 1
  {
    hide TasksOf, Unstyled, StrayText, PlainAll, Plain;
    TasksPlain(env, n.children, k);
    UnstyledPlain(n);
  }

  lemma {:induction false} TasksPlain(env: Env, ns: seq<Node>, k: ListKind)
    requires var d := TasksOf(env, ns, k); d.trace.Clean() && d.value.Some?
    ensures PlainAll(ns)
    decreases ns, 1
  {
    hide TaskOf, Undressed, Trace.Then;
    if ns != [] {
      TasksPlain(env, ns[1..], k);
      if ns[0].Element? { TaskPlain(env, ns[0], k); }
    }
  }

  lemma {:induction false} TextOnlyPlain(n: Node)
    requires n.Element? && n.tag in {Th, Td, P} && TextOnly(n).Some?
    ensures Plain(n)
  {
    hide JoinText;
    if |n.children| == 1 && n.children[0].Element? && n.children[0].tag.P? {
      TextOnlyPlain(n.children[0]);
      assert n.children[1..] == [] && PlainAll(n.children[1..]);
    } else {
      TextsPlain(n.children);
    }
  }

  lemma {:induction false} CellsPlain(ns: seq<Node>, header: bool)
    requires CellsOf(ns, header).Some?
    ensures PlainAll(ns)
  {
    hide TextOnly, Undressed;
    if ns != [] {
      CellsPlain(ns[1..], header);
      if ns[0].Element? { TextOnlyPlain(ns[0]); }
    }
  }

  lemma {:induction false} RowsPlain(rows: seq<Node>, header: bool)
    requires RowCells(rows, header).Some?
    ensures forall i :: 0 <= i < |rows| ==> Plain(rows[i])
  {
    hide CellsOf, StrayText, Unstyled, Plain;
    if rows != [] {
      RowsPlain(rows[1..], false);
      CellsPlain(rows[0].children, header);
      UnstyledPlain(rows[0]);
      assert forall i :: 0 < i < |rows| ==> rows[i] == rows[1..][i - 1];
    }
  }

  lemma {:induction false} SectionsPlain(ns: seq<Node>)
    requires RowsOf(ns).Some? && forall i :: 0 <= i < |RowsOf(ns).value| ==> Plain(RowsOf(ns).value[i])
    ensures PlainAll(ns)
  {
    hide Plain, PlainAll, Unstyled, StrayText, ElementsOf;
    if ns == [] {
      TextsPlain(ns);
    } else {
      var rows, rest := RowsOf(ns).value, RowsOf(ns[1..]).value;
      var front := RowsSplit(ns);
      PlainRest(front, rest);
      SectionsPlain(ns[1..]);
      if ns[0].TextNode? { TextPlain(ns[0]); }
      else if ns[0].tag.Tr? { assert ns[0] == rows[0]; }
      else { SectionPlain(ns[0], rows); }
      FirstPlain(ns);
    }
  }

  lemma {:induction false} RowsSplit(ns: seq<Node>) returns (front: seq<Node>)
    requires ns != [] && RowsOf(ns).Some?
    ensures RowsOf(ns[1..]).Some? && RowsOf(ns).value == front + RowsOf(ns[1..]).value
    ensures ns[0].Element? ==> if ns[0].tag.Tr? then front == [ns[0]] else front == ElementsOf(ns[0].children)
  {
    hide ElementsOf, StrayText, Unstyled;
    front := if ns[0].TextNode? then [] else if ns[0].tag.Tr? then [ns[0]] else ElementsOf(ns[0].children);
  }

  lemma PlainRest(front: seq<Node>, rest: seq<Node>)
    requires forall i :: 0 <= i < |front + rest| ==> Plain((front + rest)[i])
    ensures forall i :: 0 <= i < |rest| ==> Plain(rest[i])
  {
    hide Plain;
    assert forall i :: 0 <= i < |rest| ==> rest[i] == (front + rest)[|front| + i];
  }

  lemma TextPlain(n: Node)
    requires n.TextNode?
    ensures Plain(n)
  {
  }

  lemma SectionPlain(n: Node, rows: seq<Node>)
    requires n.Element? && (n.tag.Thead? || n.tag.Tbody?) && Unstyled(n) && ElementsOf(n.children) <= rows
    requires forall i :: 0 <= i < |rows| ==> Plain(rows[i])
    ensures Plain(n)
  {
    hide Plain, PlainAll, Unstyled, ElementsOf;
    var es := ElementsOf(n.children);
    assert forall i :: 0 <= i < |es| ==> es[i] == rows[i];
    PlainEach(es);
    PlainElements(n.children);
    UnstyledPlain(n);
  }

  lemma TablePlain(n: Node)
    requires n.Element? && n.tag == Tag.Table && TableOf(n).Some?
    ensures Plain(n)
  {
    hide RowsOf, RowCells, StrayText, Unstyled, EvenRows, Plain, PlainAll;
    RowsPlain(RowsOf(n.children).value, true);
    SectionsPlain(n.children);
    UnstyledPlain(n);
  }

  lemma CodePlain(n: Node)
    requires n.Element? && n.tag == Pre && CodeOf(n).Some?
    ensures Plain(n)
  {
    hide StrayText, Unstyled, JoinText, Plain, PlainAll, LanguageText;
    var kids := ElementsOf(n.children);
    assert kids[0] in kids && kids == [kids[0]];
    TextsPlain(kids[0].children);
    UnstyledPlain(kids[0]);
    PlainEach(kids);
    PlainElements(n.children);
    UnstyledPlain(n);
  }

  // ---------- Every decoded block ----------

  lemma LeafPlain(env: Env, n: Node, topLevel: bool)
    requires n.Element? && var d := LeafBlock(env, n, topLevel); d.trace.Clean() && d.value.Some?
    ensures Plain(n)
  {
    hide Inlines, Unstyled, KindOf, TasksIn, ItemsOf, CodeOf, TableOf, TextBlock, Classes, StrayText, Plain, PlainAll, HR_STYLE;
    if n.tag.Hr? { RulePlain(n); }
    else if n.tag.P? || n.tag.H1? || n.tag.H2? || n.tag.H3? {
      InlinesPlain(env, n.children, []);
      UnstyledPlain(n);
    } else if n.tag.Pre? { CodePlain(n); }
    else if n.tag.Table? { TablePlain(n); }
    else if KindOf(n).Some? {
      KindUl(n);
      TasksInPlain(env, n, KindOf(n).value, true);
    } else {
      ItemsPlain(env, n.children);
      UnstyledPlain(n);
    }
  }

  lemma RulePlain(n: Node)
    requires n.Element? && n.tag == Hr && n.attrs.Keys == {"style"} && n.children == []
    ensures Plain(n)
  {
  }

  lemma LeafShown(env: Env, n: Node, topLevel: bool)
    requires n.Element? && var d := LeafBlock(env, n, topLevel); d.trace.Clean() && d.value.Some?
    ensures LeafKept(n, LeafBlock(env, n, topLevel).value.value)
  {
    hide Inlines, Unstyled, KindOf, TasksIn, ItemsOf, CodeOf, TableOf, Classes, StrayText, RunGlyphs, Shown, ItemsKept, TasksKept, TableKept,
      TextGlyphs, ShownAll;
    if n.tag.P? || n.tag.H1? || n.tag.H2? || n.tag.H3? {
      InlinesShown(env, n.children, []);
      ParagraphShown(n, {});
      assert MarkSet([]) == {};
    } else if n.tag.Pre? { CodeShown(n); }
    else if n.tag.Table? { TableShown(n); }
    else if n.tag.List() && KindOf(n).Some? { ChecklistShown(env, n, topLevel); }
    else if n.tag.List() {
      NoStray(n.children);
      ItemsShown(env, n.children);
    }
  }

  lemma ChecklistShown(env: Env, n: Node, topLevel: bool)
    requires n.Element? && KindOf(n).Some?
    requires var d := Checklist(env, n, KindOf(n).value, topLevel); d.trace.Clean() && d.value.Some?
    ensures LeafKept(n, Checklist(env, n, KindOf(n).value, topLevel).value.value)
  {
    hide KindOf, TasksIn, TasksKept;
    KindUl(n);
    TasksInShown(env, n, KindOf(n).value, true);
  }

  /** The block is what the element says: a preserved region names its element, a container holds
      what its element holds, and everything else has the characters of its element, which says
      nothing that the block could not hold. */
  ghost predicate BlockKept(n: Node, b: Block)
    decreases b, 0
  {
    && n.Element?
    && match b
       case Opaque(nodeType, sentinel) => nodeType == TagName(n.tag) && sentinel.source.NativeHtml?
       case Blockquote(blocks) => n.tag == Tag.Blockquote && Undressed(n) && BlocksKept(n.children, blocks)
       case Callout(v, blocks) =>
         && n.tag == Div && Undressed(n) && "data-variant" in n.attrs && n.attrs["data-variant"] == VariantName(v)
         && "data-type" in n.attrs && n.attrs["data-type"] == "callout" && BlocksKept(n.children, blocks)
       case _ => LeafKept(n, b) && Plain(n)
  }

  /** The nodes are blank text and the elements of the blocks, one after the other. */
  ghost predicate BlocksKept(ns: seq<Node>, bs: seq<Block>)
    decreases bs, |ns|
  {
    if ns == [] then bs == []
    else if ns[0].TextNode? then Blank(ns[0].value) && BlocksKept(ns[1..], bs)
    else bs != [] && BlockKept(ns[0], bs[0]) && BlocksKept(ns[1..], bs[1..])
  }

  lemma LeafIsLeaf(n: Node, b: Block)
    requires n.Element? && LeafKept(n, b) && Plain(n)
    ensures BlockKept(n, b)
  {
    hide Plain, Shown, RunGlyphs, ItemsKept, TasksKept, TableKept, TextGlyphs;
  }

  lemma ContainerSays(n: Node)
    requires n.Element? && ContainerOf(n).Some?
    ensures Undressed(n)
    ensures match ContainerOf(n).value
            case QuoteKey => n.tag == Tag.Blockquote
            case CalloutKey(v) =>
              && n.tag == Div && "data-variant" in n.attrs && n.attrs["data-variant"] == VariantName(v)
              && "data-type" in n.attrs && n.attrs["data-type"] == "callout"
            case _ => false
  {
  }

  lemma {:induction false} ElementKept(env: Env, b: Binding, n: Node, k: nat, topLevel: bool)
    requires n.Element? && DecodeElement(env, b, n, k, topLevel).0.Clean()
    ensures var d := DecodeElement(env, b, n, k, topLevel).1; |d.blocks| == 1 && BlockKept(n, d.blocks[0])
    decreases n, 0
  {
    hide Unsupported, ContainerOf, StrayText, LeafBlock, DecodeNodes, LeafKept, Plain, BlocksKept, Undressed, TagName;
    if Unsupported(n) {
    } else if ContainerOf(n).Some? && !StrayText(n.children) {
      NoStray(n.children);
      NodesKept(env, b, n.children, k, false);
      ContainerSays(n);
    } else if LeafBlock(env, n, topLevel).value.Some? {
      LeafShown(env, n, topLevel);
      LeafPlain(env, n, topLevel);
      LeafIsLeaf(n, LeafBlock(env, n, topLevel).value.value);
    }
  }

  lemma {:induction false} NodesKept(env: Env, b: Binding, ns: seq<Node>, k: nat, topLevel: bool)
    requires TextBlank(ns) && DecodeNodes(env, b, ns, k, topLevel).0.Clean()
    ensures BlocksKept(ns, DecodeNodes(env, b, ns, k, topLevel).1.blocks)
    decreases ns, 1
  {
    hide DecodeElement, BlockKept, Blank, Trace.Then;
    if ns != [] {
      TextBlankRest(ns);
      if ns[0].TextNode? {
        NodesKept(env, b, ns[1..], k, topLevel);
      } else {
        var (t, head) := DecodeElement(env, b, ns[0], k, topLevel);
        ElementKept(env, b, ns[0], k, topLevel);
        NodesKept(env, b, ns[1..], k + |head.regions|, topLevel);
      }
    }
  }

  /** The element that marks the whole note. */
  predicate NoteElement(n: Node) {
    n.Element? && n.tag == Div && "data-type" in n.attrs && n.attrs["data-type"] == "document" && "dir" !in n.attrs
  }

  /** The nodes are the blocks, or blank text around one note element that holds them. */
  ghost predicate NoteKept(ns: seq<Node>, doc: seq<Block>) {
    if exists i :: 0 <= i < |ns| && NoteElement(ns[i]) && ElementsOf(ns) == [ns[i]]
    then TextBlank(ns) && forall i :: 0 <= i < |ns| && ns[i].Element? ==> BlocksKept(ns[i].children, doc)
    else BlocksKept(ns, doc)
  }

  lemma {:induction false} KeptElements(ns: seq<Node>, bs: seq<Block>)
    requires TextBlank(ns) && BlocksKept(ElementsOf(ns), bs)
    ensures BlocksKept(ns, bs)
    decreases ns
  {
    hide BlockKept, Blank;
    if ns != [] {
      TextBlankRest(ns);
      if ns[0].Element? {
        assert ElementsOf(ns) == [ns[0]] + ElementsOf(ns[1..]);
        assert ElementsOf(ns)[1..] == ElementsOf(ns[1..]);
        KeptElements(ns[1..], bs[1..]);
      } else {
        assert ElementsOf(ns) == ElementsOf(ns[1..]);
        KeptElements(ns[1..], bs);
      }
    }
  }

  /** In every accepted decode, the document keeps the note: nothing beside its blocks but blank text,
      and every block what its element says, down to each character and its marks. */
  lemma DecodeKeeps(env: Env, stored: Stored, b: Binding)
    requires Decode(env, stored, b).Accepted?
    ensures NoteKept(ParseOf(env, stored.data).nodes, Decode(env, stored, b).document)
  {
    hide ParseOf, BindingTrace, EnvelopeTrace, DecodeNodes, StrayText, ElementsOf, BlocksKept, TextBlank, ValidatedTrace, References,
      DistinctTokens;
    var ns := ParseOf(env, stored.data).nodes;
    NoStray(ns);
    NoStray(Content(ns));
    NodesKept(env, b, Content(ns), 0, true);
    if ContainerElement(ns).Some? {
      var e := ContainerElement(ns).value;
      assert e in ElementsOf(ns);
      OnlyElement(ns, e);
    } else {
      NoNote(ns);
      KeptElements(ns, Decode(env, stored, b).document);
    }
  }

  lemma OnlyElement(ns: seq<Node>, e: Node)
    requires ElementsOf(ns) == [e] && e in ns
    ensures exists i :: 0 <= i < |ns| && ns[i] == e
    ensures forall i :: 0 <= i < |ns| && ns[i].Element? ==> ns[i] == e
  {
    forall i | 0 <= i < |ns| && ns[i].Element? ensures ns[i] == e { ElementIn(ns, i); }
  }

  lemma {:induction false} ElementIn(ns: seq<Node>, i: nat)
    requires i < |ns| && ns[i].Element?
    ensures ns[i] in ElementsOf(ns)
  {
    if i > 0 { ElementIn(ns[1..], i - 1); }
  }

  lemma NoNote(ns: seq<Node>)
    requires ContainerElement(ns) == None
    ensures !(exists i :: 0 <= i < |ns| && NoteElement(ns[i]) && ElementsOf(ns) == [ns[i]])
  {
    hide ElementsOf;
  }

  // ---------- All the text of a block ----------

  lemma {:induction false} ItemsJoined(ns: seq<Node>, items: seq<ListItem>)
    requires ItemsKept(ns, items)
    ensures ShownAll(ns, {}, true) == ItemGlyphs(items)
  {
    hide Shown, RunGlyphs, Blank;
    if ns != [] {
      ItemsJoined(ns[1..], if ns[0].TextNode? then items else items[1..]);
    }
  }

  lemma {:induction false} TaskJoined(n: Node, task: TaskItem)
    requires TaskKept(n, task)
    ensures Shown(n, {}) == RunGlyphs(task.inlines) + TaskGlyphs(task.children)
    decreases task, 0
  {
    hide RunGlyphs, Blank, Ticked, TasksKept, ShownAll, TextBlank, ElementsOf, TaskGlyphs;
    var kids := ElementsOf(n.children);
    assert kids[0] in kids && kids[0] in n.children;
    ListItemShown(n);
    LooseAll(n.children, {});
    if |kids| == 1 {
      assert kids == [kids[0]];
      OneShown(kids[0], {}, true);
      NoTaskGlyphs();
    } else {
      assert kids == [kids[0], kids[1]];
      TwoShown(kids[0], kids[1], {});
      TasksJoined(kids[1].children, task.children);
      ListShown(kids[1]);
    }
  }

  lemma NoTaskGlyphs()
    ensures TaskGlyphs([]) == []
  {
  }

  lemma {:induction false} TwoShown(a: Node, b: Node, marks: set<Mark>)
    requires a.Element? && b.Element?
    ensures ShownAll([a, b], marks, true) == Shown(a, marks) + Shown(b, marks)
  {
    hide Shown;
    OneShown(b, marks, true);
    assert [a, b][1..] == [b];
  }

  lemma ListItemShown(n: Node)
    requires n.Element? && n.tag == Li && ElementsOf(n.children) != [] && ElementsOf(n.children)[0] in n.children
    requires ElementsOf(n.children)[0].tag == P
    ensures Shown(n, {}) == ShownAll(n.children, {}, true)
  {
    hide ElementsOf;
    var none: set<Mark> := {};
    assert none + none == none;
    assert HoldsParagraph(n.children);
  }

  lemma ListShown(n: Node)
    requires n.Element? && n.tag in {Ul, Ol, Tag.Table, Thead, Tbody, Tr}
    ensures Shown(n, {}) == ShownAll(n.children, {}, true)
  {
    var none: set<Mark> := {};
    assert none + none == none;
  }

  lemma {:induction false} TasksJoined(ns: seq<Node>, tasks: seq<TaskItem>)
    requires TasksKept(ns, tasks)
    ensures ShownAll(ns, {}, true) == TaskGlyphs(tasks)
    decreases tasks, |ns|
  {
    hide Shown, RunGlyphs, Blank, TaskKept;
    if ns != [] {
      if ns[0].TextNode? {
        TasksJoined(ns[1..], tasks);
      } else {
        TaskJoined(ns[0], tasks[0]);
        TasksJoined(ns[1..], tasks[1..]);
      }
    }
  }

  lemma {:induction false} CellsJoined(ns: seq<Node>, cells: seq<string>, tag: Tag)
    requires CellsKept(ns, cells, tag)
    ensures ShownAll(ns, {}, true) == CellGlyphs(cells)
  {
    hide Shown, TextGlyphs, Blank;
    if ns != [] { CellsJoined(ns[1..], if ns[0].TextNode? then cells else cells[1..], tag); }
  }

  lemma {:induction false} RowsJoined(rows: seq<Node>, cells: seq<seq<string>>, tag: Tag)
    requires RowsKept(rows, cells, tag)
    ensures ShownAll(rows, {}, true) == RowGlyphs(cells)
  {
    hide CellsKept, Shown, CellGlyphs;
    if rows != [] {
      CellsJoined(rows[0].children, cells[0], tag);
      ListShown(rows[0]);
      RowsJoined(rows[1..], cells[1..], Td);
    }
  }

  lemma {:induction false} ShownBoth(a: seq<Node>, b: seq<Node>, marks: set<Mark>)
    ensures ShownAll(a + b, marks, true) == ShownAll(a, marks, true) + ShownAll(b, marks, true)
  {
    hide Shown, Blank;
    if a == [] {
      assert a + b == b;
    } else {
      assert (a + b)[1..] == a[1..] + b && (a + b)[0] == a[0];
      ShownBoth(a[1..], b, marks);
    }
  }

  /** The sections of a table add nothing to its rows. */
  lemma {:induction false} SectionsJoined(ns: seq<Node>)
    requires TextBlank(ns)
    requires forall i :: 0 <= i < |ns| && ns[i].Element? && ns[i].tag != Tr ==> ns[i].tag in {Thead, Tbody} && TextBlank(ns[i].children)
    ensures ShownAll(ns, {}, true) == ShownAll(Trs(ns), {}, true)
  {
    hide Shown, Blank, TextBlank;
    if ns != [] {
      TextBlankRest(ns);
      assert forall i :: 0 <= i < |ns[1..]| ==> ns[1..][i] == ns[i + 1];
      SectionsJoined(ns[1..]);
      if ns[0].Element? && ns[0].tag == Tr {
        ShownBoth([ns[0]], Trs(ns[1..]), {});
        OneShown(ns[0], {}, true);
      } else if ns[0].Element? {
        ShownBoth(ElementsOf(ns[0].children), Trs(ns[1..]), {});
        LooseAll(ns[0].children, {});
        ListShown(ns[0]);
      } else {
        assert Trs(ns) == Trs(ns[1..]);
      }
    }
  }

  /** The text of a block that holds no others, all its runs, cells and code in order, is the text of its
      element: every character, with the marks it stood in. */
  lemma LeafJoined(n: Node, b: Block)
    requires n.Element? && LeafKept(n, b)
    ensures Shown(n, {}) == BlockGlyphs(b)
  {
    hide Shown, ShownAll, RunGlyphs, ItemsKept, TasksKept, RowsKept, TextGlyphs, CellGlyphs, RowGlyphs, ItemGlyphs, TaskGlyphs, TextBlank,
      Trs;
    match b
    case BulletList(items) => ListShown(n); ItemsJoined(n.children, items);
    case OrderedList(items) => ListShown(n); ItemsJoined(n.children, items);
    case TaskList(_, _, tasks) => ListShown(n); TasksJoined(n.children, tasks);
    case Table(columns, rows) =>
      ListShown(n);
      SectionsJoined(n.children);
      RowsJoined(Trs(n.children), [columns] + rows, Th);
      FirstRow(columns, rows);
    case HorizontalRule => RuleShown(n);
    case _ =>
  }

  lemma FirstRow(columns: seq<string>, rows: seq<seq<string>>)
    ensures RowGlyphs([columns] + rows) == CellGlyphs(columns) + RowGlyphs(rows)
  {
    assert ([columns] + rows)[1..] == rows;
  }

  lemma RuleShown(n: Node)
    requires n.Element? && n.tag == Hr && n.children == []
    ensures Shown(n, {}) == []
  {
  }
}
