/** The decode of the parsed nodes as it runs: every element is visited in turn, and whatever fault
    it has goes to the scan before the next one is looked at. */
module NativeWalk {
  import opened Text
  import opened NativeFaults
  import opened NativeHtml
  import opened NoteDocument
  import opened NativeDecode

  /** A step that was to decode `d` has thrown, or has returned its value, where `None` is the
      signal to preserve the enclosing block. */
  ghost predicate Did<T>(before: seq<Reason>, after: seq<Reason>, d: Dec<T>, thrown: Option<Reason>, value: Option<T>) {
    Ran(before, after, d.trace, thrown) && (thrown == None ==> value == d.value)
  }

  function Both<T>(got: seq<T>, rest: Option<seq<T>>): Option<seq<T>> {
    if rest.Some? then Some(got + rest.value) else None
  }

  /** What is to be decoded in all, when `got` has been and `rest` is still to come. */
  ghost predicate Continues<T>(d: Dec<seq<T>>, done: Trace, got: seq<T>, rest: Dec<seq<T>>) {
    && d.trace == done.Then(rest.trace)
    && (d.trace.stop == None ==> d.value == Both(got, rest.value))
  }

  /** The head of `rest` has been decoded, to nothing that ends the loop. */
  lemma Turns<T>(before: seq<Reason>, mid: seq<Reason>, after: seq<Reason>, d: Dec<seq<T>>, done: Trace, got: seq<T>,
                 head: Dec<seq<T>>, tail: Dec<seq<T>>, rest: Dec<seq<T>>)
    requires Ran(before, mid, done, None) && Ran(mid, after, head.trace, None) && head.value.Some?
    requires Continues(d, done, got, rest)
    requires rest == Dec(head.trace.Then(tail.trace), Both(head.value.value, tail.value))
    ensures Ran(before, after, done.Then(head.trace), None)
    ensures Continues(d, done.Then(head.trace), got + head.value.value, tail)
  {
    hide Ran, Trace.Then;
    RanThen(before, mid, after, done, head.trace, None);
    ThenThen(done, head.trace, tail.trace);
    if tail.value.Some? { assert got + head.value.value + tail.value.value == got + (head.value.value + tail.value.value); }
  }

  /** The head of `rest` has thrown, or asked for the block to be preserved. */
  lemma Leaves<T>(before: seq<Reason>, mid: seq<Reason>, after: seq<Reason>, d: Dec<seq<T>>, done: Trace, got: seq<T>,
                  trace: Trace, rest: Dec<seq<T>>, thrown: Option<Reason>)
    requires Ran(before, mid, done, None) && Ran(mid, after, trace, thrown)
    requires Continues(d, done, got, rest) && rest.trace == trace && (thrown == None ==> rest.value == None)
    ensures Did(before, after, d, thrown, None)
  {
    hide FirstWorst, Outsides;
    RanThen(before, mid, after, done, trace, thrown);
  }

  // ---------- Inline content ----------

  lemma {:induction false} DuplicatesStep(rs: seq<Inline>, i: nat)
    requires i < |rs|
    ensures DuplicateTrace(rs[i..])
         == Unless(DistinctMarks(MarksOf(rs[i])), Deferred(DuplicateMark)).Then(DuplicateTrace(rs[i + 1..]))
  {
    assert rs[i..][1..] == rs[i + 1..];
  }

  lemma {:induction false} CanonStep(rs: seq<Inline>, i: nat)
    requires i < |rs|
    ensures CanonRuns(rs[..i + 1]) == PushRun(CanonRuns(rs[..i]), rs[i].text, FirstOfEach(SortedMarks(MarksOf(rs[i]))))
  {
    assert rs[..i + 1][..i] == rs[..i];
  }

  /** `canonicalRuns`, which defers a repeated mark and goes on. */
  method CanonicalRuns(rs: seq<Inline>, scan: FaultScan) returns (runs: seq<Inline>)
    requires scan.Valid() && scan.scanning
    modifies scan
    ensures scan.Valid() && scan.scanning && Ran(old(scan.reached), scan.reached, DuplicateTrace(rs), None)
    ensures runs == CanonRuns(rs)
  {
    hide FirstWorst, WorstOf, DuplicateTrace, CanonRuns, PushRun, FirstOfEach, SortedMarks, DistinctMarks, Outsides, Ran;
    runs := [];
    ghost var before, done := scan.reached, NO_FAULT;
    NothingRan(before);
    assert rs[0..] == rs;
    NoRuns(rs[..0]);
    for i := 0 to |rs|
      invariant scan.Valid() && scan.scanning && Ran(before, scan.reached, done, None)
      invariant DuplicateTrace(rs) == done.Then(DuplicateTrace(rs[i..]))
      invariant runs == CanonRuns(rs[..i])
    {
      var marks := MarksOf(rs[i]);
      var t := Unless(DistinctMarks(marks), Deferred(DuplicateMark));
      ghost var mid := scan.reached;
      var none := scan.Reach(t);
      StopOf(mid, scan.reached, t, none);
      RanThen(before, mid, scan.reached, done, t, None);
      DuplicatesStep(rs, i);
      CanonStep(rs, i);
      ThenThen(done, t, DuplicateTrace(rs[i + 1..]));
      done := done.Then(t);
      runs := PushRun(runs, rs[i].text, FirstOfEach(SortedMarks(marks)));
    }
    NoRuns(rs[|rs|..]);
    ThenNothing(done);
    assert rs[..|rs|] == rs;
  }

  lemma NoRuns(rs: seq<Inline>)
    requires rs == []
    ensures DuplicateTrace(rs) == NO_FAULT && CanonRuns(rs) == []
  {
  }

  lemma NothingRan(before: seq<Reason>)
    ensures Ran(before, before, NO_FAULT, None)
  {
  }

  lemma ThenNothing(t: Trace)
    ensures t.Then(NO_FAULT) == t
  {
  }

  lemma StopOf(before: seq<Reason>, after: seq<Reason>, t: Trace, thrown: Option<Reason>)
    requires Ran(before, after, t, thrown)
    ensures thrown == None <==> t.stop == None
  {
  }

  /** What precedes a decode adds its faults. */
  lemma After<T>(before: seq<Reason>, mid: seq<Reason>, after: seq<Reason>, t: Trace, d: Dec<T>, thrown: Option<Reason>,
                 value: Option<T>)
    requires Ran(before, mid, t, None) && Did(mid, after, d, thrown, value)
    ensures Did(before, after, Dec(t.Then(d.trace), d.value), thrown, value)
  {
    hide Ran;
    RanThen(before, mid, after, t, d.trace, thrown);
  }

  /** One turn of the loop of `inline`. */
  method ReadInline(env: Env, n: Node, ms: seq<Mark>, scan: FaultScan)
    returns (thrown: Option<Reason>, value: Option<seq<Inline>>)
    requires scan.Valid() && scan.scanning
    modifies scan
    ensures scan.Valid() && scan.scanning
    ensures Did(old(scan.reached), scan.reached, InlineNode(env, n, ms), thrown, value)
    decreases n, 0
  {
    hide Ran, UrlTrace, Inlines;
    thrown, value := None, None;
    NothingRan(scan.reached);
    match n
    case TextNode(_, text, _) => value := Some(if text == "" then [] else [MarkedRun(text, ms)]);
    case Element(tag, attrs, _, children, _, _, _) =>
      if tag.Br? {
        if attrs == map[] { value := Some([MarkedRun("\n", ms)]); }
      } else if tag.A? {
        if attrs.Keys == {"href"} && attrs["href"] != "" {
          ghost var before := scan.reached;
          thrown := scan.Reach(UrlTrace(env, attrs["href"], false));
          StopOf(before, scan.reached, UrlTrace(env, attrs["href"], false), thrown);
          if thrown == None {
            ghost var mid := scan.reached;
            thrown, value := ReadInlines(env, children, ms + [Link(attrs["href"])], scan);
            After(before, mid, scan.reached, UrlTrace(env, attrs["href"], false),
                  Inlines(env, children, ms + [Link(attrs["href"])]), thrown, value);
          }
        }
      } else if attrs == map[] && MarkOf(tag).Some? {
        thrown, value := ReadInlines(env, children, ms + [MarkOf(tag).value], scan);
      }
  }

  lemma {:induction false} InlinesStep(env: Env, ns: seq<Node>, i: nat, ms: seq<Mark>)
    requires i < |ns|
    ensures var head, tail, rest := InlineNode(env, ns[i], ms), InlineNodes(env, ns[i + 1..], ms), InlineNodes(env, ns[i..], ms);
            if head.Got() then rest == Dec(head.trace.Then(tail.trace), Both(head.value.value, tail.value)) else rest == head
  {
    hide InlineNode, Trace.Then;
    assert ns[i..] != [] && ns[i..][0] == ns[i] && ns[i..][1..] == ns[i + 1..];
    var head, tail := InlineNode(env, ns[i], ms), InlineNodes(env, ns[i + 1..], ms);
    assert InlineNodes(env, ns[i..], ms)
        == if !head.Got() then head
           else Dec(head.trace.Then(tail.trace), if tail.value.Some? then Some(head.value.value + tail.value.value) else None);
  }

  lemma Starts<T>(d: Dec<seq<T>>)
    ensures Continues(d, NO_FAULT, [], d)
  {
    if d.value.Some? { assert [] + d.value.value == d.value.value; }
  }

  /** Nothing is left to decode. */
  lemma Finishes<T>(d: Dec<seq<T>>, done: Trace, got: seq<T>)
    requires Continues(d, done, got, Dec(NO_FAULT, Some([])))
    ensures d.trace == done && (done.stop == None ==> d.value == Some(got))
  {
    ThenNothing(done);
    assert got + [] == got;
  }

  lemma {:induction false} InlinesLeft(env: Env, ns: seq<Node>, ms: seq<Mark>, before: seq<Reason>, after: seq<Reason>,
                                       thrown: Option<Reason>)
    requires Did(before, after, InlineNodes(env, ns, ms), thrown, None)
    ensures Did(before, after, Inlines(env, ns, ms), thrown, None)
  {
    hide FirstWorst, Outsides, InlineNodes;
  }

  lemma {:induction false} InlinesDone(env: Env, ns: seq<Node>, ms: seq<Mark>, before: seq<Reason>, mid: seq<Reason>,
                                       after: seq<Reason>, done: Trace, out: seq<Inline>)
    requires Continues(InlineNodes(env, ns, ms), done, out, InlineNodes(env, [], ms))
    requires Ran(before, mid, done, None) && Ran(mid, after, DuplicateTrace(out), None)
    ensures Did(before, after, Inlines(env, ns, ms), None, Some(CanonRuns(out)))
  {
    hide Ran, DuplicateTrace, CanonRuns;
    Finishes(InlineNodes(env, ns, ms), done, out);
    StopOf(before, mid, done, None);
    RanThen(before, mid, after, done, DuplicateTrace(out), None);
  }

  /** `inline` */
  method ReadInlines(env: Env, ns: seq<Node>, ms: seq<Mark>, scan: FaultScan)
    returns (thrown: Option<Reason>, value: Option<seq<Inline>>)
    requires scan.Valid() && scan.scanning
    modifies scan
    ensures scan.Valid() && scan.scanning
    ensures Did(old(scan.reached), scan.reached, Inlines(env, ns, ms), thrown, value)
    decreases ns, 1
  {
    hide Ran, Trace.Then, InlineNode, InlineNodes, DuplicateTrace, CanonRuns;
    var out: seq<Inline> := [];
    ghost var d := InlineNodes(env, ns, ms);
    ghost var before, done := scan.reached, NO_FAULT;
    NothingRan(before);
    assert ns[0..] == ns;
    Starts(d);
    for i := 0 to |ns|
      invariant scan.Valid() && scan.scanning && Ran(before, scan.reached, done, None)
      invariant Continues(d, done, out, InlineNodes(env, ns[i..], ms))
    {
      ghost var mid, head := scan.reached, InlineNode(env, ns[i], ms);
      InlinesStep(env, ns, i, ms);
      thrown, value := ReadInline(env, ns[i], ms, scan);
      StopOf(mid, scan.reached, head.trace, thrown);
      if thrown.Some? || value == None {
        Leaves(before, mid, scan.reached, d, done, out, head.trace, InlineNodes(env, ns[i..], ms), thrown);
        value := None;
        InlinesLeft(env, ns, ms, before, scan.reached, thrown);
        return;
      }
      Turns(before, mid, scan.reached, d, done, out, head, InlineNodes(env, ns[i + 1..], ms), InlineNodes(env, ns[i..], ms));
      done := done.Then(head.trace);
      out := out + value.value;
    }
    assert ns[|ns|..] == [];
    ghost var mid := scan.reached;
    var runs := CanonicalRuns(out, scan);
    InlinesDone(env, ns, ms, before, mid, scan.reached, done, out);
    thrown, value := None, Some(runs);
  }

  // ---------- Lists ----------

  /** The value of a decode is put into something larger, or the decode signals preservation. */
  lemma Carries<T, U>(before: seq<Reason>, after: seq<Reason>, d: Dec<T>, e: Dec<U>, thrown: Option<Reason>,
                      value: Option<T>, made: Option<U>)
    requires Did(before, after, d, thrown, value) && e.trace == d.trace && (d.value == value ==> e.value == made)
    ensures Did(before, after, e, thrown, made)
  {
    hide Ran;
  }

  lemma {:induction false} TasksStep(env: Env, ns: seq<Node>, i: nat, k: ListKind)
    requires i < |ns|
    ensures var rest, tail := TasksOf(env, ns[i..], k), TasksOf(env, ns[i + 1..], k);
            if ns[i].TextNode? then rest == tail
            else
              var head := TaskOf(env, ns[i], k);
              rest == if head.Got() then Dec(head.trace.Then(tail.trace), Both([head.value.value], tail.value)) else Dec(head.trace, None)
  {
    hide TaskOf, Trace.Then;
    assert ns[i..] != [] && ns[i..][0] == ns[i] && ns[i..][1..] == ns[i + 1..];
    if ns[i].Element? {
      var head, tail := TaskOf(env, ns[i], k), TasksOf(env, ns[i + 1..], k);
      assert TasksOf(env, ns[i..], k)
          == if !head.Got() then Dec(head.trace, None)
             else Dec(head.trace.Then(tail.trace), if tail.value.Some? then Some([head.value.value] + tail.value.value) else None);
    }
  }

  /** One turn of the loop of `taskItems`. */
  method ReadTask(env: Env, li: Node, k: ListKind, scan: FaultScan) returns (thrown: Option<Reason>, value: Option<TaskItem>)
    requires li.Element? && scan.Valid() && scan.scanning
    modifies scan
    ensures scan.Valid() && scan.scanning
    ensures Did(old(scan.reached), scan.reached, TaskOf(env, li, k), thrown, value)
    decreases li, 0
  {
    hide Ran, Inlines, TasksIn, Unstyled, ItemClasses, StrayText, KindOf, Classes, Trace.Then, Trace.Clean;
    thrown, value := None, None;
    NothingRan(scan.reached);
    var kids := ElementsOf(li.children);
    if li.tag.Li? && Unstyled(li) && ItemClasses(li, k) && !StrayText(li.children)
       && 1 <= |kids| <= 2 && kids[0].tag.P? && Unstyled(kids[0])
       && (|kids| == 2 ==> KindOf(kids[1]) == Some(k))
    {
      ghost var before, d := scan.reached, Inlines(env, kids[0].children, []);
      var thrown', inlines := ReadInlines(env, kids[0].children, [], scan);
      StopOf(before, scan.reached, d.trace, thrown');
      if thrown'.Some? || inlines == None {
        thrown := thrown';
      } else {
        ghost var mid, n := scan.reached, if |kids| == 2 then TasksIn(env, kids[1], k, false) else Dec(NO_FAULT, Some([]));
        var nested: Option<seq<TaskItem>> := Some([]);
        if |kids| == 2 { thrown, nested := ReadTasks(env, kids[1], k, false, scan); } else { NothingRan(mid); }
        After(before, mid, scan.reached, d.trace, n, thrown, nested);
        var checked := "checked" in Classes(li) || "checked--item" in Classes(li);
        if nested.Some? { value := Some(TaskItem(checked, inlines.value, nested.value)); }
        Carries(before, scan.reached, Dec(d.trace.Then(n.trace), n.value), TaskOf(env, li, k), thrown, nested, value);
      }
    }
  }

  /** `taskItems` */
  method ReadTasks(env: Env, n: Node, k: ListKind, allowTitle: bool, scan: FaultScan)
    returns (thrown: Option<Reason>, value: Option<seq<TaskItem>>)
    requires n.Element? && scan.Valid() && scan.scanning
    modifies scan
    ensures scan.Valid() && scan.scanning
    ensures Did(old(scan.reached), scan.reached, TasksIn(env, n, k, allowTitle), thrown, value)
    decreases n, 1
  {
    hide Ran, Trace.Then, TaskOf, TasksOf, Unstyled, StrayText;
    NothingRan(scan.reached);
    if !Unstyled(n) || (!allowTitle && "data-title" in n.attrs) || StrayText(n.children) { return None, None; }
    var items: seq<TaskItem> := [];
    ghost var ns, d := n.children, TasksOf(env, n.children, k);
    ghost var before, done := scan.reached, NO_FAULT;
    assert ns[0..] == ns;
    Starts(d);
    for i := 0 to |n.children|
      invariant scan.Valid() && scan.scanning && Ran(before, scan.reached, done, None)
      invariant Continues(d, done, items, TasksOf(env, ns[i..], k))
    {
      TasksStep(env, ns, i, k);
      if n.children[i].Element? {
        ghost var mid, head := scan.reached, TaskOf(env, ns[i], k);
        var item: Option<TaskItem>;
        thrown, item := ReadTask(env, n.children[i], k, scan);
        StopOf(mid, scan.reached, head.trace, thrown);
        if thrown.Some? || item == None {
          Leaves(before, mid, scan.reached, d, done, items, head.trace, TasksOf(env, ns[i..], k), thrown);
          return thrown, None;
        }
        Turns(before, mid, scan.reached, d, done, items, Dec(head.trace, Some([head.value.value])),
              TasksOf(env, ns[i + 1..], k), TasksOf(env, ns[i..], k));
        done := done.Then(head.trace);
        items := items + [item.value];
      }
    }
    assert ns[|ns|..] == [];
    NoTasks(env, k);
    Finishes(d, done, items);
    StopOf(before, scan.reached, done, None);
    thrown, value := None, Some(items);
  }

  lemma NoTasks(env: Env, k: ListKind)
    ensures TasksOf(env, [], k) == Dec(NO_FAULT, Some([]))
  {
  }

  lemma {:induction false} ItemsStep(env: Env, ns: seq<Node>, i: nat)
    requires i < |ns|
    ensures var rest, tail := ItemsOf(env, ns[i..]), ItemsOf(env, ns[i + 1..]);
            if ns[i].TextNode? then rest == tail
            else
              var head := ItemOf(env, ns[i]);
              rest == if head.Got() then Dec(head.trace.Then(tail.trace), Both([head.value.value], tail.value)) else Dec(head.trace, None)
  {
    hide ItemOf, Trace.Then;
    assert ns[i..] != [] && ns[i..][0] == ns[i] && ns[i..][1..] == ns[i + 1..];
    if ns[i].Element? {
      var head, tail := ItemOf(env, ns[i]), ItemsOf(env, ns[i + 1..]);
      assert ItemsOf(env, ns[i..])
          == if !head.Got() then Dec(head.trace, None)
             else Dec(head.trace.Then(tail.trace), if tail.value.Some? then Some([head.value.value] + tail.value.value) else None);
    }
  }

  method ReadItem(env: Env, li: Node, scan: FaultScan) returns (thrown: Option<Reason>, value: Option<ListItem>)
    requires li.Element? && scan.Valid() && scan.scanning
    modifies scan
    ensures scan.Valid() && scan.scanning
    ensures Did(old(scan.reached), scan.reached, ItemOf(env, li), thrown, value)
  {
    hide Ran, Inlines, Unstyled, StrayText, ElementsOf;
    NothingRan(scan.reached);
    thrown, value := None, None;
    if li.tag.Li? && Unstyled(li) {
      var paragraph := li.children != [] && li.children[0].Element? && li.children[0].tag.P?;
      if !(paragraph && (!Unstyled(li.children[0]) || ElementsOf(li.children[1..]) != [] || StrayText(li.children[1..]))) {
        var inlines: Option<seq<Inline>>;
        thrown, inlines := ReadInlines(env, if paragraph then li.children[0].children else li.children, [], scan);
        if inlines.Some? { value := Some(Item(inlines.value)); }
      }
    }
  }

  /** The items of an ordinary list. */
  method ReadItems(env: Env, ns: seq<Node>, scan: FaultScan) returns (thrown: Option<Reason>, value: Option<seq<ListItem>>)
    requires scan.Valid() && scan.scanning
    modifies scan
    ensures scan.Valid() && scan.scanning
    ensures Did(old(scan.reached), scan.reached, ItemsOf(env, ns), thrown, value)
  {
    hide Ran, Trace.Then, ItemOf, ItemsOf;
    NothingRan(scan.reached);
    var items: seq<ListItem> := [];
    ghost var d := ItemsOf(env, ns);
    ghost var before, done := scan.reached, NO_FAULT;
    assert ns[0..] == ns;
    Starts(d);
    for i := 0 to |ns|
      invariant scan.Valid() && scan.scanning && Ran(before, scan.reached, done, None)
      invariant Continues(d, done, items, ItemsOf(env, ns[i..]))
    {
      ItemsStep(env, ns, i);
      if ns[i].Element? {
        ghost var mid, head := scan.reached, ItemOf(env, ns[i]);
        var item: Option<ListItem>;
        thrown, item := ReadItem(env, ns[i], scan);
        StopOf(mid, scan.reached, head.trace, thrown);
        if thrown.Some? || item == None {
          Leaves(before, mid, scan.reached, d, done, items, head.trace, ItemsOf(env, ns[i..]), thrown);
          return thrown, None;
        }
        Turns(before, mid, scan.reached, d, done, items, Dec(head.trace, Some([head.value.value])),
              ItemsOf(env, ns[i + 1..]), ItemsOf(env, ns[i..]));
        done := done.Then(head.trace);
        items := items + [item.value];
      }
    }
    assert ns[|ns|..] == [];
    NoItems(env);
    Finishes(d, done, items);
    StopOf(before, scan.reached, done, None);
    thrown, value := None, Some(items);
  }

  lemma NoItems(env: Env)
    ensures ItemsOf(env, []) == Dec(NO_FAULT, Some([]))
  {
  }

  // ---------- Blocks ----------

  method ReadChecklist(env: Env, n: Node, k: ListKind, topLevel: bool, scan: FaultScan)
    returns (thrown: Option<Reason>, value: Option<Block>)
    requires n.Element? && scan.Valid() && scan.scanning
    modifies scan
    ensures scan.Valid() && scan.scanning
    ensures Did(old(scan.reached), scan.reached, Checklist(env, n, k, topLevel), thrown, value)
  {
    hide Ran, TasksIn;
    NothingRan(scan.reached);
    thrown, value := None, None;
    var title := Attr(n, "data-title");
    if !(title.Some? && ((!topLevel && title.value != "") || k != RichTaskList)) {
      var tasks: Option<seq<TaskItem>>;
      thrown, tasks := ReadTasks(env, n, k, true, scan);
      if tasks.Some? { value := Some(TaskList(Some(k), if title == Some("") then None else title, tasks.value)); }
    }
  }

  method ReadList(env: Env, n: Node, scan: FaultScan) returns (thrown: Option<Reason>, value: Option<Block>)
    requires n.Element? && scan.Valid() && scan.scanning
    modifies scan
    ensures scan.Valid() && scan.scanning
    ensures Did(old(scan.reached), scan.reached, PlainList(env, n), thrown, value)
  {
    hide Ran, ItemsOf, Classes, Unstyled, StrayText;
    NothingRan(scan.reached);
    thrown, value := None, None;
    if !("checklist" in Classes(n) || "simple-checklist" in Classes(n) || "start" in n.attrs
         || "reversed" in n.attrs || "data-title" in n.attrs || !Unstyled(n) || StrayText(n.children))
    {
      var items: Option<seq<ListItem>>;
      thrown, items := ReadItems(env, n.children, scan);
      if items.Some? { value := Some(ListBlock(n.tag, items.value)); }
    }
  }

  /** `decodeBlock` of what holds no other blocks. */
  method ReadLeaf(env: Env, n: Node, topLevel: bool, scan: FaultScan) returns (thrown: Option<Reason>, value: Option<Block>)
    requires n.Element? && scan.Valid() && scan.scanning
    modifies scan
    ensures scan.Valid() && scan.scanning
    ensures Did(old(scan.reached), scan.reached, LeafBlock(env, n, topLevel), thrown, value)
  {
    hide Ran, Inlines, Unstyled, KindOf, Checklist, PlainList, CodeOf, TableOf, TextBlock;
    NothingRan(scan.reached);
    thrown, value := None, None;
    var tag := n.tag;
    if tag.Hr? {
      if n.attrs == map["style" := HR_STYLE] && n.children == [] { value := Some(HorizontalRule); }
    } else if tag.P? || tag.H1? || tag.H2? || tag.H3? {
      if Unstyled(n) {
        var inlines: Option<seq<Inline>>;
        thrown, inlines := ReadInlines(env, n.children, [], scan);
        if inlines.Some? { value := Some(TextBlock(tag, inlines.value)); }
      }
    } else if tag.List() {
      var kind := KindOf(n);
      if kind.Some? { thrown, value := ReadChecklist(env, n, kind.value, topLevel, scan); }
      else { thrown, value := ReadList(env, n, scan); }
    } else if tag.Pre? {
      value := CodeOf(n);
    } else if tag.Table? {
      value := TableOf(n);
    }
  }

  /** The `payloads` map of one decode: the sources of the regions preserved so far, of which the one
      with `i` before it is found under `env.token(binding, i, raw)`. */
  class Payloads {
    var sources: seq<string>

    constructor ()
      ensures sources == []
    {
      sources := [];
    }

    /** What is done instead of decoding an element. */
    method Preserve(env: Env, b: Binding, n: Node) returns (block: Block, record: Record)
      requires n.Element?
      modifies this
      ensures Region(env, b, n, |old(sources)|) == Decoded([block], [record], [n.raw]) && sources == old(sources) + [n.raw]
    {
      block := Opaque(TagName(n.tag), Sentinel(NativeHtml, env.token(b, |sources|, n.raw)));
      record := Record(n.raw, n.open, block, []);
      sources := sources + [n.raw];
    }
  }

  /** A walk that was to reach the faults of `t` and decode `d` has thrown, or has returned the
      blocks and their records and added the sources of the regions in them. */
  ghost predicate Walked(before: seq<Reason>, after: seq<Reason>, found: seq<string>, sources: seq<string>, t: Trace,
                         d: Decoded, thrown: Option<Reason>, blocks: seq<Block>, records: seq<Record>)
  {
    && Ran(before, after, t, thrown)
    && (thrown == None ==> d == Decoded(blocks, records, d.regions) && sources == found + d.regions)
  }

  /** `decodeBlock` and the handler around it. */
  method ReadElement(env: Env, b: Binding, n: Node, topLevel: bool, payloads: Payloads, scan: FaultScan)
    returns (thrown: Option<Reason>, block: Block, record: Record)
    requires n.Element? && scan.Valid() && scan.scanning
    modifies scan, payloads
    ensures scan.Valid() && scan.scanning
    ensures var (t, d) := DecodeElement(env, b, n, |old(payloads.sources)|, topLevel);
            Walked(old(scan.reached), scan.reached, old(payloads.sources), payloads.sources, t, d, thrown, [block], [record])
    decreases n, 0
  {
    hide Ran, Unsupported, ContainerOf, StrayText, LeafBlock, Region, Wrap, DecodeNodes;
    NothingRan(scan.reached);
    thrown := None;
    if Unsupported(n) {
      block, record := payloads.Preserve(env, b, n);
    } else if ContainerOf(n).Some? && !StrayText(n.children) {
      ghost var k := |payloads.sources|;
      ghost var (t, d) := DecodeNodes(env, b, n.children, k, false);
      var blocks, records;
      thrown, blocks, records := ReadBlocks(env, b, n.children, false, payloads, scan);
      block := Wrap(ContainerOf(n).value, blocks);
      record := Record(n.raw, n.open, block, records);
    } else {
      ghost var before := scan.reached;
      var value;
      thrown, value := ReadLeaf(env, n, topLevel, scan);
      StopOf(before, scan.reached, LeafBlock(env, n, topLevel).trace, thrown);
      if thrown == None && value == None {
        block, record := payloads.Preserve(env, b, n);
      } else if thrown == None {
        block := value.value;
        record := Record(n.raw, n.open, block, []);
      } else {
        block, record := HorizontalRule, Record("", "", HorizontalRule, []);
      }
    }
  }

  lemma {:induction false} NodesStep(env: Env, b: Binding, ns: seq<Node>, i: nat, k: nat, topLevel: bool)
    requires i < |ns|
    ensures ns[i].TextNode? ==> DecodeNodes(env, b, ns[i..], k, topLevel) == DecodeNodes(env, b, ns[i + 1..], k, topLevel)
    ensures ns[i].Element? ==>
      var (t, head) := DecodeElement(env, b, ns[i], k, topLevel);
      var (t', tail) := DecodeNodes(env, b, ns[i + 1..], k + |head.regions|, topLevel);
      DecodeNodes(env, b, ns[i..], k, topLevel) == if t.stop.Some? then (t, head) else (t.Then(t'), head.And(tail))
  {
    hide DecodeElement, Trace.Then, Decoded.And;
    assert ns[i..] != [] && ns[i..][0] == ns[i] && ns[i..][1..] == ns[i + 1..];
  }

  /** What is to be walked in all, when `got` has been and `rest` is still to come. */
  ghost predicate WalksOn(all: (Trace, Decoded), done: Trace, got: Decoded, rest: (Trace, Decoded)) {
    && all.0 == done.Then(rest.0)
    && (all.0.stop == None ==> all.1 == got.And(rest.1))
  }

  lemma WalksTurn(before: seq<Reason>, mid: seq<Reason>, after: seq<Reason>, all: (Trace, Decoded), done: Trace,
                  got: Decoded, head: (Trace, Decoded), tail: (Trace, Decoded), rest: (Trace, Decoded))
    requires Ran(before, mid, done, None) && Ran(mid, after, head.0, None) && WalksOn(all, done, got, rest)
    requires rest == (head.0.Then(tail.0), head.1.And(tail.1))
    ensures Ran(before, after, done.Then(head.0), None) && WalksOn(all, done.Then(head.0), got.And(head.1), tail)
  {
    hide Ran, Trace.Then;
    RanThen(before, mid, after, done, head.0, None);
    ThenThen(done, head.0, tail.0);
    AndAnd(got, head.1, tail.1);
  }

  lemma AndAnd(a: Decoded, b: Decoded, c: Decoded)
    ensures a.And(b).And(c) == a.And(b.And(c))
  {
    assert a.blocks + b.blocks + c.blocks == a.blocks + (b.blocks + c.blocks);
    assert a.records + b.records + c.records == a.records + (b.records + c.records);
    assert a.regions + b.regions + c.regions == a.regions + (b.regions + c.regions);
  }

  const NOTHING := Decoded([], [], [])

  lemma AndNothing(d: Decoded)
    ensures d.And(NOTHING) == d && NOTHING.And(d) == d
  {
    assert d.blocks + [] == d.blocks == [] + d.blocks;
    assert d.records + [] == d.records == [] + d.records;
    assert d.regions + [] == d.regions == [] + d.regions;
  }

  lemma WalksLeave(before: seq<Reason>, mid: seq<Reason>, after: seq<Reason>, all: (Trace, Decoded), done: Trace,
                   got: Decoded, rest: (Trace, Decoded), thrown: Option<Reason>)
    requires Ran(before, mid, done, None) && Ran(mid, after, rest.0, thrown) && thrown.Some? && WalksOn(all, done, got, rest)
    ensures Ran(before, after, all.0, thrown)
  {
    hide Ran;
    RanThen(before, mid, after, done, rest.0, thrown);
  }

  lemma WalksEnd(all: (Trace, Decoded), done: Trace, got: Decoded)
    requires WalksOn(all, done, got, (NO_FAULT, NOTHING)) && done.stop == None
    ensures all == (done, got)
  {
    hide Decoded.And;
    ThenNothing(done);
    AndNothing(got);
  }

  /** `decodeBlocks` */
  method ReadBlocks(env: Env, b: Binding, ns: seq<Node>, topLevel: bool, payloads: Payloads, scan: FaultScan)
    returns (thrown: Option<Reason>, blocks: seq<Block>, records: seq<Record>)
    requires scan.Valid() && scan.scanning
    modifies scan, payloads
    ensures scan.Valid() && scan.scanning
    ensures var (t, d) := DecodeNodes(env, b, ns, |old(payloads.sources)|, topLevel);
            Walked(old(scan.reached), scan.reached, old(payloads.sources), payloads.sources, t, d, thrown, blocks, records)
    decreases ns, 1
  {
    hide Ran, Trace.Then, DecodeElement, DecodeNodes, Decoded.And;
    NothingRan(scan.reached);
    blocks, records := [], [];
    ghost var found, all := payloads.sources, DecodeNodes(env, b, ns, |payloads.sources|, topLevel);
    ghost var before, done, got := scan.reached, NO_FAULT, NOTHING;
    assert ns[0..] == ns;
    AndNothing(all.1);
    for i := 0 to |ns|
      invariant scan.Valid() && scan.scanning && Ran(before, scan.reached, done, None)
      invariant got == Decoded(blocks, records, got.regions) && payloads.sources == found + got.regions
      invariant WalksOn(all, done, got, DecodeNodes(env, b, ns[i..], |payloads.sources|, topLevel))
    {
      ghost var k := |payloads.sources|;
      NodesStep(env, b, ns, i, k, topLevel);
      if ns[i].Element? {
        ghost var mid, head := scan.reached, DecodeElement(env, b, ns[i], k, topLevel);
        ghost var tail := DecodeNodes(env, b, ns[i + 1..], k + |head.1.regions|, topLevel);
        var block, record;
        thrown, block, record := ReadElement(env, b, ns[i], topLevel, payloads, scan);
        StopOf(mid, scan.reached, head.0, thrown);
        if thrown.Some? {
          WalksLeave(before, mid, scan.reached, all, done, got, head, thrown);
          return;
        }
        WalksTurn(before, mid, scan.reached, all, done, got, head, tail, (head.0.Then(tail.0), head.1.And(tail.1)));
        Grown(got, head.1, found, blocks, records, block, record);
        done, got := done.Then(head.0), got.And(head.1);
        blocks, records := blocks + [block], records + [record];
      }
    }
    assert ns[|ns|..] == [];
    NoNodes(env, b, |payloads.sources|, topLevel);
    StopOf(before, scan.reached, done, None);
    WalksEnd(all, done, got);
    thrown := None;
  }

  lemma Grown(got: Decoded, head: Decoded, found: seq<string>, blocks: seq<Block>, records: seq<Record>, block: Block,
              record: Record)
    requires got.blocks == blocks && got.records == records && head.blocks == [block] && head.records == [record]
    ensures var d := got.And(head);
            d.blocks == blocks + [block] && d.records == records + [record] && found + got.regions + head.regions == found + d.regions
  {
    assert found + got.regions + head.regions == found + (got.regions + head.regions);
  }

  lemma NoNodes(env: Env, b: Binding, k: nat, topLevel: bool)
    ensures DecodeNodes(env, b, [], k, topLevel) == (NO_FAULT, NOTHING)
  {
  }
}
