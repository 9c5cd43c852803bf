/** Which elements are read and which are preserved. The grammar says it in terms of the parsed nodes
    alone; the decoder reads exactly what it allows. */
module NativeGrammar {
  import opened Text
  import opened NativeFaults
  import opened NativeHtml
  import opened NoteDocument
  import opened NativeDecode
  import opened NativeText

  // ---------- The grammar ----------

  const MARK_TAGS := {Strong, B, Em, I, U, S, Tag.Strike, Del, Tag.Code}

  /** Inline markup without anything but the mark it is, or the address it links to. */
  predicate Spelt(n: Node)
    decreases n, 0
  {
    n.Element? ==>
      || (n.tag == Br && n.attrs == map[])
      || (n.tag == A && n.attrs.Keys == {"href"} && n.attrs["href"] != "" && SpeltAll(n.children))
      || (n.tag in MARK_TAGS && n.attrs == map[] && SpeltAll(n.children))
  }

  predicate SpeltAll(ns: seq<Node>)
    decreases ns, 1
  {
    ns != [] ==> Spelt(ns[0]) && SpeltAll(ns[1..])
  }

  /** No style, no direction, and no name for a paragraph. */
  predicate Bare(n: Node) { n.Element? && "style" !in n.attrs && "dir" !in n.attrs && (n.tag == P ==> "id" !in n.attrs) }

  predicate OnlyText(ns: seq<Node>) { forall i :: 0 <= i < |ns| ==> ns[i].TextNode? }

  /** An item is a paragraph and nothing more, or a bare label. */
  predicate ItemRead(n: Node) {
    && Bare(n) && n.tag == Li
    && if n.children != [] && n.children[0].Element? && n.children[0].tag == P
       then Bare(n.children[0]) && SpeltAll(n.children[0].children) && OnlyText(n.children[1..]) && TextBlank(n.children[1..])
       else SpeltAll(n.children)
  }

  predicate ItemsRead(ns: seq<Node>) { forall i :: 0 <= i < |ns| && ns[i].Element? ==> ItemRead(ns[i]) }

  /** A list without a checklist's class, and without numbers or a title of its own. */
  predicate ListRead(n: Node) {
    && Bare(n) && "start" !in n.attrs && "reversed" !in n.attrs && "data-title" !in n.attrs
    && "checklist" !in Classes(n) && "simple-checklist" !in Classes(n)
    && TextBlank(n.children) && ItemsRead(n.children)
  }

  predicate ClassChar(c: char) { 'a' <= c <= 'z' || c == ' ' || c == '-' }

  /** A task has the class of its items, perhaps one that says it is done, and no other. */
  predicate TaskClasses(n: Node, kind: string)
    requires n.Element?
  {
    && ("class" in n.attrs ==> n.attrs["class"] != "" && forall c :: c in n.attrs["class"] ==> ClassChar(c))
    && kind + "--item" in Classes(n)
    && forall c :: c in Classes(n) ==> c in {kind + "--item", "checked", "checked--item"}
  }

  predicate TaskRead(n: Node, kind: string)
    decreases n, 0
  {
    && Bare(n) && n.tag == Li && TaskClasses(n, kind) && TextBlank(n.children)
    && var kids := ElementsOf(n.children);
       && 1 <= |kids| <= 2 && Bare(kids[0]) && kids[0].tag == P && SpeltAll(kids[0].children)
       && (|kids| == 2 ==>
             && kids[1] in n.children && kids[1].tag == Ul && Bare(kids[1]) && "data-title" !in kids[1].attrs
             && "class" in kids[1].attrs && kids[1].attrs["class"] == kind
             && TextBlank(kids[1].children) && TasksRead(kids[1].children, kind))
  }

  predicate TasksRead(ns: seq<Node>, kind: string)
    decreases ns, 1
  {
    ns != [] ==> (ns[0].Element? ==> TaskRead(ns[0], kind)) && TasksRead(ns[1..], kind)
  }

  /** A checklist; only one that stands in no other block may have a title. */
  predicate ChecklistRead(n: Node, kind: string, topLevel: bool)
    requires n.Element?
  {
    && n.tag == Ul && "class" in n.attrs && n.attrs["class"] == kind && Bare(n)
    && ("data-title" in n.attrs ==> kind == "checklist" && (topLevel || n.attrs["data-title"] == ""))
    && TextBlank(n.children) && TasksRead(n.children, kind)
  }

  /** A cell holds text, perhaps in a paragraph, and nothing else. */
  predicate CellRead(n: Node) {
    && n.Element? && n.attrs == map[]
    && (OnlyText(n.children) || (|n.children| == 1 && n.children[0].Element? && n.children[0].tag == P && CellRead(n.children[0])))
  }

  predicate CellsRead(ns: seq<Node>, tag: Tag) { forall i :: 0 <= i < |ns| && ns[i].Element? ==> ns[i].tag == tag && CellRead(ns[i]) }

  predicate RowRead(n: Node, tag: Tag) { Bare(n) && n.tag == Tr && TextBlank(n.children) && CellsRead(n.children, tag) }

  predicate SectionsRead(ns: seq<Node>) {
    forall i :: 0 <= i < |ns| && ns[i].Element? ==>
      ns[i].tag == Tr || (ns[i].tag in {Thead, Tbody} && Bare(ns[i]) && TextBlank(ns[i].children))
  }

  /** A table has a first row of heading cells, and as many cells in every other row. */
  predicate TableRead(n: Node) {
    && Bare(n) && TextBlank(n.children) && SectionsRead(n.children)
    && var rows := Trs(n.children);
       && rows != [] && rows[0].Element?
       && (forall i :: 0 <= i < |rows| ==>
             RowRead(rows[i], if i == 0 then Th else Td) && |ElementsOf(rows[i].children)| == |ElementsOf(rows[0].children)|)
       && ElementsOf(rows[0].children) != []
  }

  predicate CodeRead(n: Node) {
    && Bare(n) && TextBlank(n.children)
    && var kids := ElementsOf(n.children);
       && |kids| == 1 && Bare(kids[0]) && kids[0].tag == Tag.Code && OnlyText(kids[0].children)
       && ("class" in kids[0].attrs ==>
             var c := kids[0].attrs["class"];
             |c| > 9 && c[..9] == "language-" && forall i :: 9 <= i < |c| ==> IsWord(c[i]) || c[i] in {'_', '+', '-'})
  }

  const RULE_STYLE :=
    "display:block;" + "border:0;" + "border-top:1px " + "solid currentColor;" + "height:0;" + "margin:1em 0"

  /** What is read as a block that holds no others. */
  predicate LeafRead(n: Node, topLevel: bool)
    requires n.Element?
  {
    if n.tag == Hr then n.attrs == map["style" := RULE_STYLE] && n.children == []
    else if n.tag in {P, H1, H2, H3} then Bare(n) && SpeltAll(n.children)
    else if n.tag == Ul && "class" in n.attrs && n.attrs["class"] in {"checklist", "simple-checklist"} then
      ChecklistRead(n, n.attrs["class"], topLevel)
    else if n.tag in {Ul, Ol} then ListRead(n)
    else if n.tag == Pre then CodeRead(n)
    else n.tag == Tag.Table && TableRead(n)
  }

  // ---------- Inline content ----------

  lemma BareIs(n: Node)
    requires n.Element?
    ensures Bare(n) <==> Unstyled(n)
  {
  }

  lemma MarkTags(tag: Tag)
    ensures MarkOf(tag).Some? <==> tag in MARK_TAGS
  {
  }

  lemma {:induction false} InlineExact(env: Env, n: Node, ms: seq<Mark>)
    requires InlineNode(env, n, ms).trace.stop == None
    ensures InlineNode(env, n, ms).value.Some? <==> Spelt(n)
    decreases n, 0
  {
    hide UrlTrace, Inlines, SpeltAll, MarkOf;
    if n.Element? {
      MarkTags(n.tag);
      if n.tag.A? && n.attrs.Keys == {"href"} && n.attrs["href"] != "" {
        InlinesExact(env, n.children, ms + [Link(n.attrs["href"])]);
      } else if n.attrs == map[] && MarkOf(n.tag).Some? {
        InlinesExact(env, n.children, ms + [MarkOf(n.tag).value]);
      }
    }
  }

  lemma {:induction false} InlineNodesExact(env: Env, ns: seq<Node>, ms: seq<Mark>)
    requires InlineNodes(env, ns, ms).trace.stop == None
    ensures InlineNodes(env, ns, ms).value.Some? <==> SpeltAll(ns)
    decreases ns, 1
  {
    hide InlineNode, Spelt;
    if ns != [] {
      InlineExact(env, ns[0], ms);
      if InlineNode(env, ns[0], ms).value.Some? { InlineNodesExact(env, ns[1..], ms); }
    }
  }

  lemma {:induction false} InlinesExact(env: Env, ns: seq<Node>, ms: seq<Mark>)
    requires Inlines(env, ns, ms).trace.stop == None
    ensures Inlines(env, ns, ms).value.Some? <==> SpeltAll(ns)
    decreases ns, 2
  {
    hide InlineNodes, SpeltAll, DuplicateTrace, CanonRuns;
    InlineNodesExact(env, ns, ms);
  }

  // ---------- Lists ----------

  lemma OnlyTextIs(ns: seq<Node>)
    ensures OnlyText(ns) <==> ElementsOf(ns) == []
  {
    if ElementsOf(ns) == [] { NoElements(ns); } else { SomeElement(ns); }
  }

  lemma {:induction false} SomeElement(ns: seq<Node>)
    requires ElementsOf(ns) != []
    ensures !OnlyText(ns)
  {
    if !ns[0].Element? {
      SomeElement(ns[1..]);
      assert exists i :: 0 <= i < |ns[1..]| && !ns[1..][i].TextNode? && ns[i + 1] == ns[1..][i];
    }
  }

  lemma {:induction false} ItemExact(env: Env, li: Node)
    requires li.Element? && ItemOf(env, li).trace.stop == None
    ensures ItemOf(env, li).value.Some? <==> ItemRead(li)
  {
    hide Inlines, Unstyled, StrayText, SpeltAll, ElementsOf, Bare, OnlyText, TextBlank;
    BareIs(li);
    if li.tag.Li? && Unstyled(li) {
      var ns := li.children;
      if ns != [] && ns[0].Element? && ns[0].tag.P? {
        BareIs(ns[0]);
        OnlyTextIs(ns[1..]);
        NoStray(ns[1..]);
        if ItemOf(env, li) != Dec(NO_FAULT, None) || ItemRead(li) { InlinesExact(env, ns[0].children, []); }
      } else {
        InlinesExact(env, ns, []);
      }
    }
  }

  lemma {:induction false} ItemsExact(env: Env, ns: seq<Node>)
    requires ItemsOf(env, ns).trace.stop == None
    ensures ItemsOf(env, ns).value.Some? <==> ItemsRead(ns)
  {
    hide ItemOf, ItemRead;
    if ns != [] {
      ItemsFirst(ns);
      if ns[0].TextNode? {
        ItemsExact(env, ns[1..]);
      } else {
        ItemExact(env, ns[0]);
        if ItemOf(env, ns[0]).value.Some? { ItemsExact(env, ns[1..]); }
      }
    }
  }

  lemma ItemsFirst(ns: seq<Node>)
    requires ns != []
    ensures ItemsRead(ns) <==> (ns[0].Element? ==> ItemRead(ns[0])) && ItemsRead(ns[1..])
  {
    hide ItemRead;
    assert forall i :: 0 <= i < |ns[1..]| ==> ns[1..][i] == ns[i + 1];
    assert forall i :: 0 < i < |ns| ==> ns[i] == ns[1..][i - 1];
  }

  // ---------- Checklists ----------

  function Named(k: ListKind): string { if k.RichTaskList? then "checklist" else "simple-checklist" }

  lemma ClassesExact(li: Node, k: ListKind)
    requires li.Element?
    ensures ItemClasses(li, k) <==> TaskClasses(li, Named(k))
  {
    hide Classes;
    assert KindClass(k) == Named(k);
  }

  lemma KindExact(n: Node, k: ListKind)
    requires n.Element?
    ensures KindOf(n) == Some(k) <==> n.tag == Ul && "class" in n.attrs && n.attrs["class"] == Named(k)
  {
  }

  lemma {:induction false} TaskExact(env: Env, li: Node, k: ListKind)
    requires li.Element? && TaskOf(env, li, k).trace.stop == None
    ensures TaskOf(env, li, k).value.Some? <==> TaskRead(li, Named(k))
    decreases li, 0
  {
    hide Inlines, TasksIn, Unstyled, StrayText, ItemClasses, TaskClasses, KindOf, SpeltAll, Bare, TextBlank, TasksRead, Classes,
      Trace.Then, Named;
    BareIs(li);
    ClassesExact(li, k);
    NoStray(li.children);
    var kids := ElementsOf(li.children);
    if 1 <= |kids| <= 2 {
      BareIs(kids[0]);
      assert kids[0] in kids && kids[0] in li.children;
      if |kids| == 2 {
        assert kids[1] in kids && kids[1] in li.children;
        KindExact(kids[1], k);
      }
      if TaskFront(li, k) {
        ThenStops(Inlines(env, kids[0].children, []).trace, if |kids| == 2 then TasksIn(env, kids[1], k, false).trace else NO_FAULT);
        InlinesExact(env, kids[0].children, []);
        if |kids| == 2 && SpeltAll(kids[0].children) { TasksInExact(env, kids[1], k, false); }
      }
    }
  }

  predicate TaskFront(li: Node, k: ListKind)
    requires li.Element?
  {
    var kids := ElementsOf(li.children);
    && li.tag.Li? && Unstyled(li) && ItemClasses(li, k) && !StrayText(li.children)
    && 1 <= |kids| <= 2 && kids[0].tag.P? && Unstyled(kids[0]) && (|kids| == 2 ==> KindOf(kids[1]) == Some(k))
  }

  lemma ThenStops(a: Trace, b: Trace)
    ensures a.Then(b).stop == None <==> a.stop == None && b.stop == None
  {
  }

  predicate SubtasksRead(n: Node, kind: string, allowTitle: bool)
    requires n.Element?
  {
    Bare(n) && (!allowTitle ==> "data-title" !in n.attrs) && TextBlank(n.children) && TasksRead(n.children, kind)
  }

  lemma {:induction false} TasksInExact(env: Env, n: Node, k: ListKind, allowTitle: bool)
    requires n.Element? && TasksIn(env, n, k, allowTitle).trace.stop == None
    ensures TasksIn(env, n, k, allowTitle).value.Some? <==> SubtasksRead(n, Named(k), allowTitle)
    decreases n, 1
  {
    hide TasksOf, Unstyled, StrayText, TasksRead, Bare, TextBlank, Named;
    BareIs(n);
    NoStray(n.children);
    if Unstyled(n) && (allowTitle || "data-title" !in n.attrs) && !StrayText(n.children) { TasksExact(env, n.children, k); }
  }

  lemma {:induction false} TasksExact(env: Env, ns: seq<Node>, k: ListKind)
    requires TasksOf(env, ns, k).trace.stop == None
    ensures TasksOf(env, ns, k).value.Some? <==> TasksRead(ns, Named(k))
    decreases ns, 1
  {
    hide TaskOf, TaskRead, Named;
    if ns != [] {
      if ns[0].TextNode? {
        TasksExact(env, ns[1..], k);
      } else {
        TaskExact(env, ns[0], k);
        if TaskOf(env, ns[0], k).value.Some? { TasksExact(env, ns[1..], k); }
      }
    }
  }

  // ---------- Tables and code ----------

  lemma {:induction false} CellExact(n: Node)
    requires n.Element?
    ensures TextOnly(n).Some? <==> CellRead(n)
  {
    hide JoinText;
    if |n.children| == 1 && n.children[0].Element? && n.children[0].tag.P? { CellExact(n.children[0]); }
  }

  lemma CellsFirst(ns: seq<Node>, tag: Tag)
    requires ns != []
    ensures CellsRead(ns, tag) <==> (ns[0].Element? ==> ns[0].tag == tag && CellRead(ns[0])) && CellsRead(ns[1..], tag)
  {
    hide CellRead;
    assert forall i :: 0 <= i < |ns[1..]| ==> ns[1..][i] == ns[i + 1];
    assert forall i :: 0 < i < |ns| ==> ns[i] == ns[1..][i - 1];
  }

  lemma {:induction false} CellsExact(ns: seq<Node>, header: bool)
    ensures CellsOf(ns, header).Some? <==> CellsRead(ns, if header then Th else Td)
    ensures CellsOf(ns, header).Some? ==> |CellsOf(ns, header).value| == |ElementsOf(ns)|
  {
    hide TextOnly, CellRead, CellsRead;
    if ns == [] {
      NoCells(header);
    } else {
      CellsFirst(ns, if header then Th else Td);
      CellsExact(ns[1..], header);
      if ns[0].Element? { CellExact(ns[0]); }
    }
  }

  lemma NoCells(header: bool)
    ensures CellsRead([], if header then Th else Td)
  {
  }

  /** The rows from here on, of which the first has heading cells if `header`. */
  predicate RowsRead(rows: seq<Node>, header: bool) {
    forall i :: 0 <= i < |rows| ==> RowRead(rows[i], if header && i == 0 then Th else Td)
  }

  lemma RowsFirst(rows: seq<Node>, header: bool)
    requires rows != []
    ensures RowsRead(rows, header) <==> RowRead(rows[0], if header then Th else Td) && RowsRead(rows[1..], false)
  {
    hide RowRead;
    assert forall i :: 0 <= i < |rows[1..]| ==> rows[1..][i] == rows[i + 1];
    assert forall i :: 0 < i < |rows| ==> rows[i] == rows[1..][i - 1];
  }

  lemma {:induction false} RowsExact(rows: seq<Node>, header: bool)
    ensures RowCells(rows, header).Some? <==> RowsRead(rows, header)
    ensures RowCells(rows, header).Some? ==>
              var cells := RowCells(rows, header).value;
              |cells| == |rows| && forall i :: 0 <= i < |rows| ==> rows[i].Element? && |cells[i]| == |ElementsOf(rows[i].children)|
  {
    hide CellsOf, CellsRead, StrayText, TextBlank, Unstyled, Bare, RowsRead, ElementsOf;
    if rows == [] {
      NoRowsRead(header);
    } else {
      RowsFirst(rows, header);
      RowsExact(rows[1..], false);
      if rows[0].Element? {
        BareIs(rows[0]);
        NoStray(rows[0].children);
        CellsExact(rows[0].children, header);
        RowIs(rows[0], header);
      } else {
        RowIs(rows[0], header);
      }
      if RowCells(rows, header).Some? {
        forall i | 0 < i < |rows| ensures rows[i] == rows[1..][i - 1] && RowCells(rows, header).value[i] == RowCells(rows[1..], false).value[i - 1] {
        }
      }
    }
  }

  lemma NoRowsRead(header: bool)
    ensures RowsRead([], header)
  {
  }

  lemma RowIs(n: Node, header: bool)
    ensures RowRead(n, if header then Th else Td) <==>
              n.Element? && Bare(n) && n.tag == Tr && TextBlank(n.children) && CellsRead(n.children, if header then Th else Td)
  {
    hide TextBlank, CellsRead;
  }

  lemma SectionsFirst(ns: seq<Node>)
    requires ns != []
    ensures SectionsRead(ns) <==> SectionsRead([ns[0]]) && SectionsRead(ns[1..])
  {
    hide TextBlank, Bare;
    assert forall i :: 0 <= i < |ns[1..]| ==> ns[1..][i] == ns[i + 1];
    assert forall i :: 0 < i < |ns| ==> ns[i] == ns[1..][i - 1];
    assert [ns[0]][0] == ns[0];
  }

  lemma SectionIs(n: Node)
    ensures SectionsRead([n]) <==>
              n.TextNode? || n.tag == Tr || (n.tag in {Thead, Tbody} && Bare(n) && TextBlank(n.children))
  {
    hide TextBlank, Bare;
    assert [n][0] == n;
  }

  lemma {:induction false} SectionsExact(ns: seq<Node>)
    ensures RowsOf(ns).Some? <==> SectionsRead(ns)
    ensures RowsOf(ns).Some? ==> RowsOf(ns).value == Trs(ns)
  {
    hide Unstyled, StrayText, ElementsOf, TextBlank, SectionsRead, Bare;
    if ns == [] {
      NoSections();
    } else {
      SectionsExact(ns[1..]);
      SectionsFirst(ns);
      SectionIs(ns[0]);
      if ns[0].Element? {
        BareIs(ns[0]);
        NoStray(ns[0].children);
      }
    }
  }

  lemma NoSections()
    ensures SectionsRead([])
  {
  }

  lemma TableExact(n: Node)
    requires n.Element?
    ensures TableOf(n).Some? <==> TableRead(n)
  {
    hide RowsOf, RowCells, StrayText, Unstyled, Bare, TextBlank, SectionsRead, Trs, ElementsOf, RowRead;
    BareIs(n);
    NoStray(n.children);
    SectionsExact(n.children);
    if RowsOf(n.children).Some? && RowsOf(n.children).value != [] {
      var rows := Trs(n.children);
      RowsExact(rows, true);
      if RowCells(rows, true).Some? {
        var cells := RowCells(rows, true).value;
        assert RowRead(rows[0], Th);
      }
    }
  }

  lemma LanguageExact(s: string)
    ensures StartsWith(s, "language-") && LanguageText(s[9..]) <==>
              |s| > 9 && s[..9] == "language-" && forall i :: 9 <= i < |s| ==> IsWord(s[i]) || s[i] in {'_', '+', '-'}
  {
    if StartsWith(s, "language-") {
      assert forall i :: 9 <= i < |s| ==> s[i] == s[9..][i - 9];
      assert forall i :: 0 <= i < |s| - 9 ==> s[9..][i] == s[i + 9];
    }
  }

  lemma CodeExact(n: Node)
    requires n.Element?
    ensures CodeOf(n).Some? <==> CodeRead(n)
  {
    hide StrayText, Unstyled, Bare, TextBlank, JoinText, LanguageText, ElementsOf;
    BareIs(n);
    NoStray(n.children);
    var kids := ElementsOf(n.children);
    if |kids| == 1 {
      assert kids[0] in kids;
      BareIs(kids[0]);
      if "class" in kids[0].attrs { LanguageExact(kids[0].attrs["class"]); }
    }
  }

  // ---------- Blocks ----------

  lemma ChecklistExact(env: Env, n: Node, k: ListKind, topLevel: bool)
    requires n.Element? && KindOf(n) == Some(k) && Checklist(env, n, k, topLevel).trace.stop == None
    ensures Checklist(env, n, k, topLevel).value.Some? <==> ChecklistRead(n, Named(k), topLevel)
  {
    hide KindOf, TasksIn, TasksRead, Bare, TextBlank;
    KindExact(n, k);
    if !(Attr(n, "data-title").Some? && ((!topLevel && Attr(n, "data-title").value != "") || k != RichTaskList)) {
      TasksInExact(env, n, k, true);
    }
  }

  lemma ListExact(env: Env, n: Node)
    requires n.Element? && PlainList(env, n).trace.stop == None
    ensures PlainList(env, n).value.Some? <==> ListRead(n)
  {
    hide Classes, Unstyled, StrayText, ItemsOf, ItemsRead, Bare, TextBlank;
    BareIs(n);
    NoStray(n.children);
    if ListRead(n) || PlainList(env, n) != Dec(NO_FAULT, None) { ItemsExact(env, n.children); }
  }

  lemma KindNone(n: Node)
    requires n.Element? && KindOf(n) == None
    ensures !(n.tag == Ul && "class" in n.attrs && n.attrs["class"] in {"checklist", "simple-checklist"})
  {
  }

  /** A block that holds no others is read exactly when the grammar allows its element. */
  lemma LeafExact(env: Env, n: Node, topLevel: bool)
    requires n.Element? && LeafBlock(env, n, topLevel).trace.stop == None
    ensures LeafBlock(env, n, topLevel).value.Some? <==> LeafRead(n, topLevel)
  {
    hide Inlines, Unstyled, KindOf, Checklist, PlainList, CodeOf, TableOf, TextBlock, SpeltAll, ChecklistRead, ListRead, CodeRead,
      TableRead, Bare;
    RuleIs();
    BareIs(n);
    if n.tag in {P, H1, H2, H3} {
      if Unstyled(n) { InlinesExact(env, n.children, []); }
    } else if n.tag.List() {
      if KindOf(n).Some? {
        KindExact(n, KindOf(n).value);
        ChecklistExact(env, n, KindOf(n).value, topLevel);
      } else {
        KindNone(n);
        ListExact(env, n);
      }
    } else if n.tag.Pre? {
      CodeExact(n);
    } else if n.tag.Table? {
      TableExact(n);
    }
  }

  lemma RuleIs()
    ensures HR_STYLE == RULE_STYLE
  {
  }

  /** Every reference in the element is a known one. */
  predicate Understood(n: Node)
    requires n.Element?
  {
    !n.unsupported && forall i :: 0 <= i < |n.children| && n.children[i].Element? ==> Understood(n.children[i])
  }

  lemma {:induction false} UnderstoodIs(n: Node)
    requires n.Element?
    ensures Understood(n) <==> !Unsupported(n)
  {
    forall i | 0 <= i < |n.children| && n.children[i].Element? ensures Understood(n.children[i]) <==> !Unsupported(n.children[i]) {
      UnderstoodIs(n.children[i]);
    }
  }

  predicate QuoteRead(n: Node) { Bare(n) && n.tag == Tag.Blockquote && TextBlank(n.children) }

  predicate CalloutRead(n: Node) {
    && Bare(n) && n.tag == Div && "data-type" in n.attrs && n.attrs["data-type"] == "callout" && "data-variant" in n.attrs
    && n.attrs["data-variant"] in {"info", "warning", "success", "danger"} && TextBlank(n.children)
  }

  /** What is read; everything else is preserved as a region. */
  predicate ElementRead(n: Node, topLevel: bool)
    requires n.Element?
  {
    Understood(n) && (QuoteRead(n) || CalloutRead(n) || LeafRead(n, topLevel))
  }

  lemma ContainerExact(n: Node)
    requires n.Element?
    ensures ContainerOf(n).Some? && !StrayText(n.children) <==> QuoteRead(n) || CalloutRead(n)
  {
    hide StrayText, TextBlank, Bare, Unstyled;
    NoStray(n.children);
    BareIs(n);
  }

  /** An element is preserved exactly when the grammar does not allow it. */
  lemma ElementExact(env: Env, b: Binding, n: Node, k: nat, topLevel: bool)
    requires n.Element? && DecodeElement(env, b, n, k, topLevel).0.stop == None
    ensures var d := DecodeElement(env, b, n, k, topLevel).1; |d.blocks| == 1 && (d.blocks[0].Opaque? <==> !ElementRead(n, topLevel))
  {
    hide Unsupported, Understood, ContainerOf, StrayText, LeafBlock, DecodeNodes, QuoteRead, CalloutRead, LeafRead, TagName;
    UnderstoodIs(n);
    ContainerExact(n);
    if !Unsupported(n) && !(ContainerOf(n).Some? && !StrayText(n.children)) {
      LeafExact(env, n, topLevel);
      if LeafBlock(env, n, topLevel).value.Some? { LeafNotOpaque(env, n, topLevel); }
    }
  }

  lemma LeafNotOpaque(env: Env, n: Node, topLevel: bool)
    requires n.Element? && LeafBlock(env, n, topLevel).value.Some?
    ensures !LeafBlock(env, n, topLevel).value.value.Opaque?
  {
    hide Inlines, Unstyled, KindOf, TasksIn, ItemsOf, Classes, StrayText, RowsOf, RowCells;
  }

  // ---------- Every level ----------

  /** Of these elements, exactly those that the grammar does not allow are regions. */
  ghost predicate BlocksRead(ns: seq<Node>, bs: seq<Block>, topLevel: bool)
    decreases bs, |ns|
  {
    if ns == [] then bs == []
    else if ns[0].TextNode? then BlocksRead(ns[1..], bs, topLevel)
    else
      && bs != [] && (bs[0].Opaque? <==> !ElementRead(ns[0], topLevel)) && BlockRead(ns[0], bs[0])
      && BlocksRead(ns[1..], bs[1..], topLevel)
  }

  ghost predicate BlockRead(n: Node, b: Block)
    requires n.Element?
    decreases b, 0
  {
    match b
    case Blockquote(blocks) => BlocksRead(n.children, blocks, false)
    case Callout(_, blocks) => BlocksRead(n.children, blocks, false)
    case _ => true
  }

  lemma {:induction false} NodeRead(env: Env, b: Binding, n: Node, k: nat, topLevel: bool)
    requires n.Element? && DecodeElement(env, b, n, k, topLevel).0.stop == None
    ensures var d := DecodeElement(env, b, n, k, topLevel).1; |d.blocks| == 1 && BlockRead(n, d.blocks[0])
    decreases n, 0
  {
    hide Unsupported, ContainerOf, StrayText, LeafBlock, DecodeNodes, BlocksRead;
    if !Unsupported(n) && ContainerOf(n).Some? && !StrayText(n.children) {
      NodesRead(env, b, n.children, k, false);
    } else if LeafBlock(env, n, topLevel).value.Some? {
      LeafHoldsNone(env, n, topLevel);
    }
  }

  lemma LeafHoldsNone(env: Env, n: Node, topLevel: bool)
    requires n.Element? && LeafBlock(env, n, topLevel).value.Some?
    ensures var b := LeafBlock(env, n, topLevel).value.value; !b.Blockquote? && !b.Callout?
  {
    hide Inlines, Unstyled, KindOf, TasksIn, ItemsOf, Classes, StrayText, RowsOf, RowCells;
  }

  lemma {:induction false} NodesRead(env: Env, b: Binding, ns: seq<Node>, k: nat, topLevel: bool)
    requires DecodeNodes(env, b, ns, k, topLevel).0.stop == None
    ensures BlocksRead(ns, DecodeNodes(env, b, ns, k, topLevel).1.blocks, topLevel)
    decreases ns, 1
  {
    hide DecodeElement, BlockRead, ElementRead;
    if ns != [] {
      if ns[0].TextNode? {
        NodesRead(env, b, ns[1..], k, topLevel);
      } else {
        var (t, head) := DecodeElement(env, b, ns[0], k, topLevel);
        ElementExact(env, b, ns[0], k, topLevel);
        NodeRead(env, b, ns[0], k, topLevel);
        NodesRead(env, b, ns[1..], k + |head.regions|, topLevel);
      }
    }
  }

  /** In every accepted decode, at every level, exactly the elements that the grammar does not allow are
      preserved as regions; all others are read. */
  lemma DecodeReads(env: Env, stored: Stored, b: Binding)
    requires Decode(env, stored, b).Accepted?
    ensures BlocksRead(Content(ParseOf(env, stored.data).nodes), Decode(env, stored, b).document, true)
  {
    hide ParseOf, BindingTrace, EnvelopeTrace, DecodeNodes, StrayText, ElementsOf, BlocksRead, ValidatedTrace, References, DistinctTokens,
      Content;
    NodesRead(env, b, Content(ParseOf(env, stored.data).nodes), 0, true);
  }
}
