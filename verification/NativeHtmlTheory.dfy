/** What the parser of `NativeHtml` accepts: exactly the strings that are the source of a
    well-formed forest within its bounds, each of them with that forest as its result. */
module NativeHtmlTheory {
  import opened Text
  import opened NativeFaults
  import opened NativeHtml

  // ---------- Sources, sizes, well-formedness ----------

  function Source(n: Node): string {
    match n
    case TextNode(src, _, _) => src
    case Element(_, _, open, children, close, _, _) => open + Sources(children) + close
  }

  function Sources(ns: seq<Node>): string {
    if ns == [] then "" else Source(ns[0]) + Sources(ns[1..])
  }

  lemma {:induction false} CleanFirst(ns: seq<Node>)
    requires ns != []
    ensures CleanText(Sources(ns)) <==> CleanText(Source(ns[0])) && CleanText(Sources(ns[1..]))
  {
    hide Source, CleanText;
    CleanBoth(Source(ns[0]), Sources(ns[1..]));
  }

  lemma CleanParts(n: Node)
    requires n.Element? && CleanText(Source(n))
    ensures CleanText(n.open) && CleanText(Sources(n.children)) && CleanText(n.close)
  {
    hide Sources, CleanText;
    CleanBoth(n.open + Sources(n.children), n.close);
    CleanBoth(n.open, Sources(n.children));
  }

  /** How many turns of the parser's loop a node takes. */
  function Tokens(n: Node): nat {
    match n
    case TextNode(_, _, _) => 1
    case Element(tag, _, _, children, _, _, _) =>
      if tag.Void() then 1 else 2 + TokensOf(children)
  }

  function TokensOf(ns: seq<Node>): nat {
    if ns == [] then 0 else Tokens(ns[0]) + TokensOf(ns[1..])
  }

  /** How many elements are open at once while a node is read. */
  function Height(n: Node): nat {
    match n
    case TextNode(_, _, _) => 0
    case Element(tag, _, _, children, _, _, _) => if tag.Void() then 0 else 1 + HeightOf(children)
  }

  function HeightOf(ns: seq<Node>): nat {
    if ns == [] then 0
    else
      var h, t := Height(ns[0]), HeightOf(ns[1..]);
      if h >= t then h else t
  }

  predicate AnyUnsupportedText(ns: seq<Node>) {
    exists i :: 0 <= i < |ns| && ns[i].TextNode? && ns[i].unsupported
  }

  /** `open` is an opening tag of `n` that reaches no fault. */
  predicate WellOpened(env: Env, n: Node)
    requires n.Element?
  {
    && n.open != "" && n.open[0] == '<'
    && var o := LexOpen(env, n.open);
       && o.before.Clean() && o.rest.trace.Clean() && o.rest.end == |n.open|
       && o.tag == n.tag && o.rest.attrs == n.attrs
       && n.unsupported == (o.rest.unsupported || AnyUnsupportedText(n.children))
  }

  predicate WellClosed(n: Node)
    requires n.Element?
  {
    if n.tag.Void() then n.children == [] && n.close == ""
    else
      var c := LexClose(n.close);
      c.Some? && c.value.1 == |n.close| && TagOf(c.value.0) == n.tag
  }

  /** `n` may stand inside the open elements `ctx`, and reading it there reaches no fault. */
  predicate Wf(env: Env, n: Node, ctx: seq<Tag>)
    requires ctx != []
    decreases n, 0
  {
    match n
    case TextNode(src, value, unsupported) =>
      && src != "" && '<' !in src
      && value == Entities(src).value && unsupported == Entities(src).unsupported
      && TextTrace(ctx[|ctx| - 1], value).Clean()
    case Element(tag, _, _, children, _, raw, _) =>
      && StructTrace(ctx, tag).Clean()
      && WellOpened(env, n)
      && WellClosed(n)
      && raw == Source(n)
      && WfAll(env, children, ctx + [tag])
  }

  predicate WfAll(env: Env, ns: seq<Node>, ctx: seq<Tag>)
    requires ctx != []
    decreases ns, 1
  {
    ns != [] ==>
      && Wf(env, ns[0], ctx)
      && !(ns[0].TextNode? && |ns| > 1 && ns[1].TextNode?)
      && WfAll(env, ns[1..], ctx)
  }

  // ---------- A tag is read the same whatever follows it ----------

  ghost predicate Agree(s: string, t: string, n: nat) {
    n <= |s| && n <= |t| && forall i :: 0 <= i < n ==> s[i] == t[i]
  }

  lemma {:induction false} EndFront(s: string, t: string, i: nat, p: char -> bool)
    requires i <= |s| && End(s, i, p) < |s| && Agree(s, t, End(s, i, p) + 1)
    ensures End(t, i, p) == End(s, i, p)
  {
    hide End;
    var e := End(s, i, p);
    assert forall k :: i <= k < e ==> p(t[k]) by {
      forall k | i <= k < e ensures p(t[k]) { assert p(s[k]); }
    }
    assert !p(t[e]);
  }

  lemma CloseFront(s: string, t: string)
    requires LexClose(s).Some? && Agree(s, t, LexClose(s).value.1)
    ensures LexClose(t) == LexClose(s)
  {
    hide End, IsSpace, IsNameChar, Lower, TagOf, LexAttrs;
    var n := NameEnd(s, 2);
    EndFront(s, t, 2, IsNameChar);
    EndFront(s, t, n, IsSpace);
    assert s[2..n] == t[2..n];
  }

  lemma TagEndFront(s: string, t: string, i: nat)
    requires i <= |s| && LexTagEnd(s, i).Some? && Agree(s, t, LexTagEnd(s, i).value.1)
    ensures LexTagEnd(t, i) == LexTagEnd(s, i)
  {
    hide End, IsSpace, IsNameChar, Lower, TagOf, LexAttrs;
    EndFront(s, t, i, IsSpace);
  }

  lemma ValueFront(s: string, t: string, i: nat)
    requires i <= |s| && LexValue(s, i).Some? && LexValue(s, i).value.1 < |s|
    requires Agree(s, t, LexValue(s, i).value.1 + 1)
    ensures LexValue(t, i) == LexValue(s, i)
  {
    hide End, IsSpace, IsNameChar, Lower, TagOf, LexAttrs;
    var end := LexValue(s, i).value.1;
    if s[i] == '"' || s[i] == '\'' {
      EndFront(s, t, i + 1, if s[i] == '"' then NotDoubleQuote else NotSingleQuote);
      assert s[i + 1..end - 1] == t[i + 1..end - 1];
    } else {
      EndFront(s, t, i, IsUnquoted);
      assert s[i..end] == t[i..end];
    }
  }

  lemma AttrNameFront(s: string, t: string, i: nat)
    requires i <= |s| && LexAttrName(s, i).Some? && LexAttrName(s, i).value.1 < |s|
    requires Agree(s, t, LexAttrName(s, i).value.1 + 1)
    ensures LexAttrName(t, i) == LexAttrName(s, i)
  {
    hide End, IsSpace, IsNameChar, Lower;
    var a := End(s, i, IsSpace);
    EndFront(s, t, i, IsSpace);
    var n := NameEnd(s, a);
    EndFront(s, t, a, IsNameChar);
    var e := End(s, n, IsSpace);
    EndFront(s, t, n, IsSpace);
    EndFront(s, t, e + 1, IsSpace);
    assert s[a..n] == t[a..n];
  }

  lemma AttrFront(s: string, t: string, i: nat)
    requires i <= |s| && LexAttr(s, i).Some? && LexAttr(s, i).value.end < |s|
    requires Agree(s, t, LexAttr(s, i).value.end + 1)
    ensures LexAttr(t, i) == LexAttr(s, i)
  {
    hide LexAttrName, LexValue;
    AttrNameFront(s, t, i);
    ValueFront(s, t, LexAttrName(s, i).value.1);
  }

  lemma NextAttrFront(s: string, t: string, i: nat, n: nat)
    requires i <= |s| && LexTagEnd(s, i) == None && LexAttr(s, i).Some?
    requires LexAttr(s, i).value.end < n && Agree(s, t, n)
    ensures LexTagEnd(t, i) == None && LexAttr(t, i) == LexAttr(s, i)
  {
    hide End, IsSpace, Lower, LexValue;
    AttrFront(s, t, i);
    EndFront(s, t, i, IsSpace);
  }

  /** One turn of the attribute loop. */
  lemma AttrsStep(env: Env, tag: Tag, s: string, i: nat, attrs: Attrs)
    requires i <= |s|
    ensures LexTagEnd(s, i).Some? ==>
              LexAttrs(env, tag, s, i, attrs) ==
              TagRest(Unless(!LexTagEnd(s, i).value.0 || tag.Void(), Stopped(SelfClosingElement)),
                      attrs, false, LexTagEnd(s, i).value.1)
    ensures LexTagEnd(s, i) == None ==>
              var a := LexAttr(s, i);
              LexAttrs(env, tag, s, i, attrs) ==
              if a == None then TagRest(Stopped(MalformedAttribute), attrs, false, i)
              else WithAttr(env, tag, attrs.Keys, a.value,
                            LexAttrs(env, tag, s, a.value.end,
                                     attrs[a.value.key := Entities(a.value.value).value]))
  {
    hide AttrTrace, WithAttr, LexAttr, LexTagEnd, Entities, Unless, Tag.Void;
  }

  lemma {:induction false} AttrsFront(env: Env, tag: Tag, s: string, t: string, i: nat, attrs: Attrs)
    requires i <= |s| && i <= |t|
    requires LexAttrs(env, tag, s, i, attrs).trace.stop == None
    requires Agree(s, t, LexAttrs(env, tag, s, i, attrs).end)
    ensures LexAttrs(env, tag, t, i, attrs) == LexAttrs(env, tag, s, i, attrs)
    decreases |s| - i
  {
    hide LexAttrs, AttrTrace, WithAttr, LexAttr, LexTagEnd, Entities, Unless, Tag.Void;
    AttrsStep(env, tag, s, i, attrs);
    AttrsStep(env, tag, t, i, attrs);
    if LexTagEnd(s, i).Some? {
      TagEndFront(s, t, i);
    } else {
      var a := LexAttr(s, i).value;
      NextAttrFront(s, t, i, LexAttrs(env, tag, s, i, attrs).end);
      AttrsFront(env, tag, s, t, a.end, attrs[a.key := Entities(a.value).value]);
    }
  }

  lemma OpenFront(env: Env, s: string, t: string)
    requires s != "" && s[0] == '<'
    requires LexOpen(env, s).before.stop == None && LexOpen(env, s).rest.trace.stop == None
    requires Agree(s, t, LexOpen(env, s).rest.end)
    ensures t != "" && t[0] == '<' && LexOpen(env, t) == LexOpen(env, s)
  {
    hide End, IsSpace, IsNameChar, Lower, TagOf, LexAttrs;
    var n := NameEnd(s, 1);
    EndFront(s, t, 1, IsNameChar);
    assert s[1..n] == t[1..n];
    AttrsFront(env, LexOpen(env, s).tag, s, t, n, map[]);
  }

  // ---------- Well-formed sources are accepted ----------

  /** The state after `ns` has been read in `st`. */
  function After(st: State, ns: seq<Node>): (r: State)
    requires st.stack != []
    ensures |r.stack| == |st.stack|
  {
    var top := st.stack[|st.stack| - 1];
    State(st.pos + |Sources(ns)|, st.count + TokensOf(ns),
          st.stack[|st.stack| - 1 := top.(
            children := top.children + ns,
            unsupported := top.unsupported || AnyUnsupportedText(ns))])
  }

  predicate Fits(limits: Limits, st: State, ns: seq<Node>) {
    && st.count + TokensOf(ns) <= limits.tokens
    && (ns != [] ==> |st.stack| + HeightOf(ns) <= limits.open)
  }

  /** `ns` stands at the position of `st`, in front of `post`. */
  ghost predicate Ahead(html: string, st: State, ns: seq<Node>, post: string) {
    && Live(html, st)
    && html[st.pos..] == Sources(ns) + post
    && (ns != [] && ns[|ns| - 1].TextNode? && post != "" ==> post[0] == '<')
  }

  lemma {:induction false} SourceStarts(env: Env, n: Node, ctx: seq<Tag>)
    requires ctx != [] && Wf(env, n, ctx)
    ensures Source(n) != "" && (Source(n)[0] == '<' <==> n.Element?)
  {
    hide LexOpen, StructTrace, TextTrace, LexClose, Entities, Trace.Clean;
  }

  lemma {:induction false} ReadsText(env: Env, limits: Limits, html: string, st: State, n: Node, post: string)
    requires n.TextNode? && Ahead(html, st, [n], post) && Fits(limits, st, [n])
    requires Wf(env, n, Tags(st.stack))
    ensures st.pos < |html|
    ensures NextState(env, limits, html, st) == Step(NO_FAULT, After(st, [n]))
  {
    hide Entities, TextTrace, LexOpen, LexClose;
    SourceStarts(env, n, Tags(st.stack));
    assert Sources([n]) == n.src;
    var rest := html[st.pos..];
    var k := |n.src|;
    assert rest[..k] == n.src;
    assert forall i :: 0 <= i < k ==> rest[i] == n.src[i] && rest[i] in n.src;
    assert k < |rest| ==> rest[k] == post[0];
    assert End(rest, 0, NotTagStart) == k by {
      var e := End(rest, 0, NotTagStart);
      assert e < |rest| ==> rest[e] == '<';
      assert k < |rest| ==> !NotTagStart(rest[k]);
    }
    assert HeightOf([n]) == 0 && TokensOf([n]) == 1;
    AnyUnsupportedTextOne([], n);
  }

  lemma {:induction false} ReadsOpen(env: Env, limits: Limits, html: string, st: State, n: Node)
    requires n.Element? && Live(html, st) && Agree(n.open, html[st.pos..], |n.open|)
    requires st.count < limits.tokens && |st.stack| <= limits.open
    requires Wf(env, n, Tags(st.stack))
    ensures st.pos < |html|
    ensures n.tag.Void() ==>
              NextState(env, limits, html, st) ==
              Step(NO_FAULT, State(st.pos + |n.open|, st.count + 1, WithChild(st.stack, n)))
    ensures !n.tag.Void() ==>
              var u := LexOpen(env, n.open).rest.unsupported;
              var frame := Frame(n.tag, n.attrs, n.open, st.pos, u, []);
              NextState(env, limits, html, st) ==
              Step(NO_FAULT, State(st.pos + |n.open|, st.count + 1, st.stack + [frame]))
  {
    hide LexOpen, StructTrace, LexClose;
    var rest := html[st.pos..];
    OpenFront(env, n.open, rest);
    NotClosing(env, rest);
    assert rest[..|n.open|] == n.open;
    if n.tag.Void() { assert Sources([]) == "" && n.raw == n.open; }
  }

  lemma NotClosing(env: Env, s: string)
    requires s != "" && s[0] == '<' && LexOpen(env, s).before.stop == None
    ensures LexClose(s) == None
  {
    hide LexAttrs, TagOf;
  }

  lemma ReadsClose(env: Env, limits: Limits, html: string, st: State, n: Node)
    requires n.Element? && !n.tag.Void() && WellClosed(n)
    requires Live(html, st) && |st.stack| >= 2 && Agree(n.close, html[st.pos..], |n.close|)
    requires st.count < limits.tokens && |st.stack| <= limits.open
    requires var top := st.stack[|st.stack| - 1];
             && top.tag == n.tag && top.attrs == n.attrs && top.open == n.open
             && top.children == n.children && top.unsupported == n.unsupported
             && top.start <= st.pos && html[top.start..st.pos + |n.close|] == n.raw
    ensures st.pos < |html|
    ensures NextState(env, limits, html, st) ==
            Step(NO_FAULT, State(st.pos + |n.close|, st.count + 1,
                                 WithChild(st.stack[..|st.stack| - 1], n)))
  {
    hide LexOpen, LexClose, TagOf;
    var rest := html[st.pos..];
    CloseStarts(n.close);
    CloseFront(n.close, rest);
    assert rest[..|n.close|] == n.close;
  }

  lemma CloseStarts(s: string)
    requires LexClose(s).Some?
    ensures s != "" && s[0] == '<'
  {
  }

  lemma {:induction false} RunStep(env: Env, limits: Limits, html: string, st: State, next: State)
    requires Live(html, st) && st.pos < |html|
    requires NextState(env, limits, html, st) == Step(NO_FAULT, next)
    ensures Live(html, next) && Run(env, limits, html, st) == Run(env, limits, html, next)
  {
    hide NextState;
  }

  lemma AfterNone(st: State)
    requires st.stack != []
    ensures After(st, []) == st
  {
    var top := st.stack[|st.stack| - 1];
    assert top.children + [] == top.children;
    assert After(st, []).stack == st.stack;
  }

  lemma {:induction false} AfterBoth(st: State, n: Node, ns: seq<Node>)
    requires st.stack != []
    ensures After(After(st, [n]), ns) == After(st, [n] + ns)
    ensures After(st, [n]).stack == WithChild(st.stack, n)
    ensures Tags(After(st, [n]).stack) == Tags(st.stack)
    ensures HeightOf([n] + ns) >= HeightOf(ns) && HeightOf([n] + ns) >= Height(n) == HeightOf([n])
    ensures TokensOf([n] + ns) == Tokens(n) + TokensOf(ns) && TokensOf([n]) == Tokens(n)
    ensures Sources([n] + ns) == Source(n) + Sources(ns) && Sources([n]) == Source(n)
  {
    assert ([n] + ns)[1..] == ns && [n][1..] == [];
    assert Sources([n] + ns) == Source(n) + Sources(ns) && Sources([n]) == Source(n);
    assert TokensOf([n] + ns) == Tokens(n) + TokensOf(ns) && TokensOf([n]) == Tokens(n);
    AnyUnsupportedTextOf([n], ns);
    AnyUnsupportedTextOne([], n);
    assert HeightOf([n]) == Height(n);
    var top := st.stack[|st.stack| - 1];
    assert top.children + ([n] + ns) == top.children + [n] + ns;
    assert After(After(st, [n]), ns).stack == After(st, [n] + ns).stack;
    assert After(st, [n]).stack == WithChild(st.stack, n);
    assert Tags(After(st, [n]).stack) == Tags(st.stack);
  }

  lemma AnyUnsupportedTextOne(ns: seq<Node>, n: Node)
    ensures AnyUnsupportedText(ns + [n]) == (AnyUnsupportedText(ns) || (n.TextNode? && n.unsupported))
    ensures AnyUnsupportedText([n]) == (n.TextNode? && n.unsupported)
  {
    AnyUnsupportedTextOf(ns, [n]);
    assert [n][0] == n;
  }

  lemma AnyUnsupportedTextOf(a: seq<Node>, b: seq<Node>)
    ensures AnyUnsupportedText(a + b) == (AnyUnsupportedText(a) || AnyUnsupportedText(b))
  {
    if AnyUnsupportedText(a) {
      var i :| 0 <= i < |a| && a[i].TextNode? && a[i].unsupported;
      assert (a + b)[i] == a[i];
    }
    if AnyUnsupportedText(b) {
      var i :| 0 <= i < |b| && b[i].TextNode? && b[i].unsupported;
      assert (a + b)[|a| + i] == b[i];
    }
  }

  /** A node that stands ahead is followed by the rest. */
  lemma AheadOne(html: string, limits: Limits, st: State, n: Node, post: string)
    requires Ahead(html, st, [n], post) && Fits(limits, st, [n])
    ensures var next := After(st, [n]);
            Live(html, next) && html[next.pos..] == post && next.pos == st.pos + |Source(n)|
    ensures Live(html, st) && st.count + Tokens(n) <= limits.tokens && Tokens(n) > 0 && |st.stack| <= limits.open
    ensures n.Element? ==> Agree(n.open, html[st.pos..], |n.open|)
  {
    AfterBoth(st, n, []);
    assert html[st.pos..] == Source(n) + post;
    assert html[st.pos + |Source(n)|..] == html[st.pos..][|Source(n)|..];
  }

  lemma VoidAfter(env: Env, st: State, n: Node)
    requires st.stack != [] && n.Element? && n.tag.Void() && Wf(env, n, Tags(st.stack))
    ensures After(st, [n]) == State(st.pos + |n.open|, st.count + 1, WithChild(st.stack, n))
  {
    hide LexOpen, StructTrace, WellOpened;
    AfterBoth(st, n, []);
    assert Sources([]) == "";
  }

  /** Reading a well-formed node reaches no fault and appends exactly that node. */
  lemma {:induction false} RunsNode(env: Env, limits: Limits, html: string, st: State, n: Node, post: string)
    requires Ahead(html, st, [n], post) && Fits(limits, st, [n])
    requires Wf(env, n, Tags(st.stack))
    ensures Live(html, After(st, [n])) && html[After(st, [n]).pos..] == post
    ensures Run(env, limits, html, st) == Run(env, limits, html, After(st, [n]))
    decreases n, 1
  {
    AheadOne(html, limits, st, n, post);
    if n.TextNode? {
      ReadsText(env, limits, html, st, n, post);
      RunStep(env, limits, html, st, After(st, [n]));
    } else {
      ReadsOpen(env, limits, html, st, n);
      if n.tag.Void() {
        VoidAfter(env, st, n);
        RunStep(env, limits, html, st, After(st, [n]));
      } else {
        RunsElement(env, limits, html, st, n, post);
      }
    }
  }

  lemma {:induction false} RunsElement(env: Env, limits: Limits, html: string, st: State, n: Node, post: string)
    requires n.Element? && !n.tag.Void()
    requires Ahead(html, st, [n], post) && Fits(limits, st, [n])
    requires Wf(env, n, Tags(st.stack))
    ensures Live(html, After(st, [n])) && html[After(st, [n]).pos..] == post
    ensures Run(env, limits, html, st) == Run(env, limits, html, After(st, [n]))
    decreases n, 0
  {
    hide Run, NextState, LexOpen, LexClose, StructTrace, TextTrace, Entities, Trace.Clean;
    var st1 := Opened(env, st, n);
    OpenedAhead(env, limits, html, st, n, post);
    ReadsOpen(env, limits, html, st, n);
    RunStep(env, limits, html, st, st1);
    RunsAll(env, limits, html, st1, n.children, n.close + post);
    ClosesElement(env, limits, html, st, n, post);
  }

  function Opened(env: Env, st: State, n: Node): (r: State)
    requires n.Element? && n.open != "" && n.open[0] == '<'
    ensures |r.stack| == |st.stack| + 1
  {
    State(st.pos + |n.open|, st.count + 1,
          st.stack + [Frame(n.tag, n.attrs, n.open, st.pos, LexOpen(env, n.open).rest.unsupported, [])])
  }

  lemma OpenedAhead(env: Env, limits: Limits, html: string, st: State, n: Node, post: string)
    requires n.Element? && !n.tag.Void() && n.open != "" && n.open[0] == '<'
    requires Ahead(html, st, [n], post) && Fits(limits, st, [n])
    requires WellClosed(n)
    ensures Agree(n.open, html[st.pos..], |n.open|)
    ensures Ahead(html, Opened(env, st, n), n.children, n.close + post)
    ensures Fits(limits, Opened(env, st, n), n.children)
    ensures Tags(Opened(env, st, n).stack) == Tags(st.stack) + [n.tag]
  {
    hide LexOpen, LexClose;
    AfterBoth(st, n, []);
    CloseStarts(n.close);
    assert html[st.pos..] == n.open + (Sources(n.children) + (n.close + post));
    assert html[st.pos + |n.open|..] == html[st.pos..][|n.open|..];
  }

  lemma {:induction false} ClosesElement(env: Env, limits: Limits, html: string, st: State, n: Node, post: string)
    requires n.Element? && !n.tag.Void()
    requires Ahead(html, st, [n], post) && Fits(limits, st, [n])
    requires Wf(env, n, Tags(st.stack))
    requires var st2 := After(Opened(env, st, n), n.children);
             Live(html, st2) && html[st2.pos..] == n.close + post
    ensures Live(html, After(st, [n])) && html[After(st, [n]).pos..] == post
    ensures Run(env, limits, html, After(Opened(env, st, n), n.children))
         == Run(env, limits, html, After(st, [n]))
  {
    hide Run, NextState, LexOpen, LexClose, StructTrace, TextTrace, Entities, Trace.Clean;
    AfterBoth(st, n, []);
    var st2 := After(Opened(env, st, n), n.children);
    assert html[st.pos..st2.pos + |n.close|] == n.raw by {
      assert html[st.pos..st2.pos + |n.close|] == html[st.pos..][..|n.raw|];
      assert Sources([n]) == n.raw;
    }
    ReadsClose(env, limits, html, st2, n);
    assert st2.stack[..|st2.stack| - 1] == st.stack;
    RunStep(env, limits, html, st2, After(st, [n]));
    assert html[After(st, [n]).pos..] == html[st2.pos..][|n.close|..];
  }

  lemma {:induction false} RunsAll(env: Env, limits: Limits, html: string, st: State, ns: seq<Node>, post: string)
    requires Ahead(html, st, ns, post) && Fits(limits, st, ns)
    requires WfAll(env, ns, Tags(st.stack))
    ensures Live(html, After(st, ns)) && html[After(st, ns).pos..] == post
    ensures Run(env, limits, html, st) == Run(env, limits, html, After(st, ns))
    decreases ns, 2
  {
    hide Run, NextState, LexOpen, LexClose, StructTrace, TextTrace, Entities, Trace.Clean;
    if ns == [] {
      AfterNone(st);
    } else {
      var n, rest := ns[0], ns[1..];
      assert ns == [n] + rest;
      AfterBoth(st, n, rest);
      assert Sources(ns) + post == Source(n) + (Sources(rest) + post);
      if rest != [] {
        SourceStarts(env, rest[0], Tags(st.stack));
        assert (Sources(rest) + post)[0] == Source(rest[0])[0];
      } else {
        assert Sources(rest) + post == post;
      }
      assert html[st.pos..] == Sources([n]) + (Sources(rest) + post);
      RunsNode(env, limits, html, st, n, Sources(rest) + post);
      RunsAll(env, limits, html, After(st, [n]), rest, post);
    }
  }

  // ---------- Only well-formed sources are accepted ----------

  /** What the open elements of `stack` and their finished children were read from. */
  function StackSource(stack: seq<Frame>): string {
    if stack == [] then ""
    else
      var m := |stack| - 1;
      StackSource(stack[..m]) + stack[m].open + Sources(stack[m].children)
  }

  function StackTokens(stack: seq<Frame>): nat {
    if stack == [] then 0
    else
      var m := |stack| - 1;
      StackTokens(stack[..m]) + (if m == 0 then 0 else 1) + TokensOf(stack[m].children)
  }

  /** The top frame holds what has been read of an element so far. */
  predicate WfTop(env: Env, limits: Limits, stack: seq<Frame>)
    requires stack != []
  {
    var m := |stack| - 1;
    var top := stack[m];
    && WfAll(env, top.children, Tags(stack))
    && (top.children != [] ==> |stack| + HeightOf(top.children) <= limits.open)
    && top.start == |StackSource(stack[..m])|
    && if m == 0 then top.tag == Root && top.open == ""
       else
         && StructTrace(Tags(stack[..m]), top.tag).Clean()
         && OpensAs(env, top)
  }

  /** `f` was opened by its opening tag without a fault. */
  predicate OpensAs(env: Env, f: Frame) {
    && !f.tag.Void()
    && f.open != "" && f.open[0] == '<'
    && var o := LexOpen(env, f.open);
       && o.before.Clean() && o.rest.trace.Clean() && o.rest.end == |f.open|
       && o.tag == f.tag && o.rest.attrs == f.attrs
       && f.unsupported == (o.rest.unsupported || AnyUnsupportedText(f.children))
  }

  predicate WfStack(env: Env, limits: Limits, stack: seq<Frame>) {
    stack != [] ==> WfTop(env, limits, stack) && WfStack(env, limits, stack[..|stack| - 1])
  }

  /** The parser has read the first `st.pos` characters without a fault. */
  ghost predicate ReadSoFar(env: Env, limits: Limits, html: string, st: State) {
    && Live(html, st)
    && html[..st.pos] == StackSource(st.stack)
    && WfStack(env, limits, st.stack)
    && st.count == StackTokens(st.stack) <= limits.tokens
    && (var children := st.stack[|st.stack| - 1].children;
        children != [] && children[|children| - 1].TextNode? && st.pos < |html| ==> html[st.pos] == '<')
  }

  lemma {:induction false} WfAppend(env: Env, ns: seq<Node>, n: Node, ctx: seq<Tag>)
    requires ctx != [] && WfAll(env, ns, ctx) && Wf(env, n, ctx)
    requires ns != [] && ns[|ns| - 1].TextNode? ==> n.Element?
    ensures WfAll(env, ns + [n], ctx)
    ensures Sources(ns + [n]) == Sources(ns) + Source(n)
    ensures TokensOf(ns + [n]) == TokensOf(ns) + Tokens(n)
    ensures HeightOf(ns + [n]) == if Height(n) >= HeightOf(ns) then Height(n) else HeightOf(ns)
  {
    hide Wf;
    if ns == [] {
      assert ns + [n] == [n];
      assert [n][1..] == [];
    } else {
      WfAppend(env, ns[1..], n, ctx);
      assert (ns + [n])[1..] == ns[1..] + [n];
      assert |ns| > 1 ==> (ns + [n])[1] == ns[1];
    }
  }

  lemma PushedFrame(stack: seq<Frame>, n: Node)
    requires stack != []
    ensures var m, stack' := |stack| - 1, WithChild(stack, n);
            && |stack'| == m + 1 && stack'[..m] == stack[..m] && Tags(stack') == Tags(stack)
            && stack'[m] == stack[m].(children := stack[m].children + [n],
                                   unsupported := stack[m].unsupported || (n.TextNode? && n.unsupported))
  {
    var m, stack' := |stack| - 1, WithChild(stack, n);
    assert forall i :: 0 <= i <= m ==> stack'[i].tag == stack[i].tag;
  }

  lemma PushedSource(stack: seq<Frame>, n: Node)
    requires stack != []
    requires Sources(stack[|stack| - 1].children + [n]) == Sources(stack[|stack| - 1].children) + Source(n)
    ensures StackSource(WithChild(stack, n)) == StackSource(stack) + Source(n)
  {
    PushedFrame(stack, n);
  }

  lemma PushedTokens(stack: seq<Frame>, n: Node)
    requires stack != []
    requires TokensOf(stack[|stack| - 1].children + [n]) == TokensOf(stack[|stack| - 1].children) + Tokens(n)
    ensures StackTokens(WithChild(stack, n)) == StackTokens(stack) + Tokens(n)
  {
    PushedFrame(stack, n);
  }

  lemma {:induction false} PushKeeps(env: Env, limits: Limits, stack: seq<Frame>, n: Node)
    requires stack != [] && WfStack(env, limits, stack) && Wf(env, n, Tags(stack))
    requires |stack| + Height(n) <= limits.open
    requires var children := stack[|stack| - 1].children;
             children != [] && children[|children| - 1].TextNode? ==> n.Element?
    ensures WfStack(env, limits, WithChild(stack, n))
    ensures StackSource(WithChild(stack, n)) == StackSource(stack) + Source(n)
    ensures StackTokens(WithChild(stack, n)) == StackTokens(stack) + Tokens(n)
  {
    var m := |stack| - 1;
    var top, stack' := stack[m], WithChild(stack, n);
    PushedFrame(stack, n);
    WfAppend(env, top.children, n, Tags(stack));
    assert WfTop(env, limits, stack') by {
      AnyUnsupportedTextOne(top.children, n);
    }
    PushedSource(stack, n);
    PushedTokens(stack, n);
  }

  lemma TextKeeps(env: Env, limits: Limits, html: string, st: State)
    requires ReadSoFar(env, limits, html, st) && st.pos < |html| && html[st.pos] != '<'
    requires NextState(env, limits, html, st).trace.Clean()
    ensures ReadSoFar(env, limits, html, NextState(env, limits, html, st).next)
  {
    hide LexOpen, LexClose, Entities, TextTrace, WfStack, StackSource, StackTokens;
    var rest := html[st.pos..];
    var k := End(rest, 0, NotTagStart);
    var d := Entities(rest[..k]);
    var n := TextNode(rest[..k], d.value, d.unsupported);
    assert k > 0 && '<' !in n.src;
    var parent := st.stack[|st.stack| - 1].tag;
    assert Tags(st.stack)[|st.stack| - 1] == parent;
    assert NextState(env, limits, html, st).trace == TextTrace(parent, d.value);
    assert Wf(env, n, Tags(st.stack));
    PushKeeps(env, limits, st.stack, n);
    var next := NextState(env, limits, html, st).next;
    assert html[..next.pos] == html[..st.pos] + rest[..k];
    assert k < |rest| ==> rest[k] == html[next.pos] == '<';
  }

  /** What a closing tag read without a fault does. */
  lemma CloseNext(env: Env, limits: Limits, html: string, st: State)
    requires Live(html, st) && st.pos < |html| && LexClose(html[st.pos..]).Some?
    requires NextState(env, limits, html, st).trace.Clean()
    ensures var m, close := |st.stack| - 1, html[st.pos..][..LexClose(html[st.pos..]).value.1];
            var top, pos := st.stack[m], st.pos + |close|;
            var n := Element(top.tag, top.attrs, top.open, top.children, close,
                             if top.start <= pos then html[top.start..pos] else "", top.unsupported);
            && m > 0 && |st.stack| <= limits.open && st.count < limits.tokens
            && NextState(env, limits, html, st).next == State(pos, st.count + 1, WithChild(st.stack[..m], n))
            && html[..pos] == html[..st.pos] + close
            && (!top.tag.Void() ==> WellClosed(n))
  {
    hide LexOpen, LexClose, StructTrace, TagOf, Source;
    var rest := html[st.pos..];
    var close := rest[..LexClose(rest).value.1];
    CloseStarts(rest);
    CloseFront(rest, close);
    assert html[..st.pos + |close|] == html[..st.pos] + close;
  }

  lemma CloseKeeps(env: Env, limits: Limits, html: string, st: State)
    requires ReadSoFar(env, limits, html, st) && st.pos < |html| && html[st.pos] == '<'
    requires LexClose(html[st.pos..]).Some?
    requires NextState(env, limits, html, st).trace.Clean()
    ensures ReadSoFar(env, limits, html, NextState(env, limits, html, st).next)
  {
    hide NextState, LexOpen, LexClose, StructTrace, WellClosed, TextTrace, Entities;
    CloseNext(env, limits, html, st);
    var m, close := |st.stack| - 1, html[st.pos..][..LexClose(html[st.pos..]).value.1];
    var top, below, pos := st.stack[m], st.stack[..m], st.pos + |close|;
    var n := Element(top.tag, top.attrs, top.open, top.children, close, html[top.start..pos], top.unsupported);
    assert Tags(st.stack) == Tags(below) + [top.tag];
    assert html[..pos] == StackSource(below) + Source(n);
    assert html[top.start..pos] == html[..pos][top.start..];
    assert StackTokens(st.stack) + 1 == StackTokens(below) + Tokens(n);
    assert Wf(env, n, Tags(below)) by { hide StackSource, StackTokens; }
    PushKeeps(env, limits, below, n);
  }

  /** What an opening tag read without a fault does. */
  lemma OpenNext(env: Env, limits: Limits, html: string, st: State)
    requires Live(html, st) && st.pos < |html| && html[st.pos] == '<' && LexClose(html[st.pos..]) == None
    requires NextState(env, limits, html, st).trace.Clean()
    ensures var o := LexOpen(env, html[st.pos..]);
            && o.before.Clean() && o.rest.trace.Clean() && 0 < o.rest.end <= |html| - st.pos
            && StructTrace(Tags(st.stack), o.tag).Clean()
            && |st.stack| <= limits.open && st.count < limits.tokens
            && var open := html[st.pos..][..o.rest.end];
               && LexOpen(env, open) == o
               && open[0] == '<'
               && html[..st.pos + |open|] == html[..st.pos] + open
               && NextState(env, limits, html, st).next ==
                  State(st.pos + |open|, st.count + 1,
                        if o.tag.Void() then
                          WithChild(st.stack, Element(o.tag, o.rest.attrs, open, [], "", open, o.rest.unsupported))
                        else
                          st.stack + [Frame(o.tag, o.rest.attrs, open, st.pos, o.rest.unsupported, [])])
  {
    hide LexOpen, LexClose, StructTrace;
    var rest := html[st.pos..];
    var open := rest[..LexOpen(env, rest).rest.end];
    OpenFront(env, rest, open);
    assert html[..st.pos + |open|] == html[..st.pos] + open;
  }

  lemma OpenKeeps(env: Env, limits: Limits, html: string, st: State)
    requires ReadSoFar(env, limits, html, st) && st.pos < |html| && html[st.pos] == '<'
    requires LexClose(html[st.pos..]) == None
    requires NextState(env, limits, html, st).trace.Clean()
    ensures ReadSoFar(env, limits, html, NextState(env, limits, html, st).next)
  {
    hide NextState, LexOpen, LexClose, StructTrace, WfStack, StackSource, StackTokens, Trace.Clean;
    OpenNext(env, limits, html, st);
    var o := LexOpen(env, html[st.pos..]);
    var open := html[st.pos..][..o.rest.end];
    assert !AnyUnsupportedText([]);
    if o.tag.Void() {
      var n := Element(o.tag, o.rest.attrs, open, [], "", open, o.rest.unsupported);
      assert Source(n) == open by { assert Sources([]) == ""; }
      assert Wf(env, n, Tags(st.stack));
      PushKeeps(env, limits, st.stack, n);
    } else {
      FrameKeeps(env, limits, st.stack,
                 Frame(o.tag, o.rest.attrs, open, st.pos, o.rest.unsupported, []));
    }
  }

  lemma {:induction false} FrameKeeps(env: Env, limits: Limits, stack: seq<Frame>, frame: Frame)
    requires stack != [] && WfStack(env, limits, stack)
    requires frame.children == [] && frame.start == |StackSource(stack)|
    requires OpensAs(env, frame) && StructTrace(Tags(stack), frame.tag).Clean()
    ensures WfStack(env, limits, stack + [frame])
    ensures StackSource(stack + [frame]) == StackSource(stack) + frame.open
    ensures StackTokens(stack + [frame]) == StackTokens(stack) + 1
  {
    hide OpensAs, StructTrace, Trace.Clean;
    assert (stack + [frame])[..|stack|] == stack;
    assert Sources([]) == "" && TokensOf([]) == 0;
    assert WfTop(env, limits, stack + [frame]) by { hide WfStack, StackSource, StackTokens; }
  }

  /** The parser's result on an accepted input is a well-formed forest with that source, and
      the source slice of every element is its own source. */
  lemma {:induction false} RunSound(env: Env, limits: Limits, html: string, st: State)
    requires ReadSoFar(env, limits, html, st)
    requires Run(env, limits, html, st).trace.Clean()
    ensures Accepts(env, limits, html, Run(env, limits, html, st).nodes)
    decreases |html| - st.pos
  {
    hide NextState;
    if st.pos == |html| {
      assert st.stack[..0] == [];
      assert Tags(st.stack) == [Root];
      assert html[..st.pos] == html;
    } else {
      var step := NextState(env, limits, html, st);
      if html[st.pos] != '<' {
        TextKeeps(env, limits, html, st);
      } else if LexClose(html[st.pos..]).Some? {
        CloseKeeps(env, limits, html, st);
      } else {
        OpenKeeps(env, limits, html, st);
      }
      RunSound(env, limits, html, step.next);
    }
  }

  /** `ns` is a well-formed forest whose source is `html`, within the parser's bounds. */
  predicate Accepts(env: Env, limits: Limits, html: string, ns: seq<Node>) {
    && Sources(ns) == html
    && WfAll(env, ns, [Root])
    && TokensOf(ns) <= limits.tokens
    && (ns != [] ==> 1 + HeightOf(ns) <= limits.open)
  }

  lemma {:induction false} RunComplete(env: Env, limits: Limits, html: string, ns: seq<Node>)
    requires Accepts(env, limits, html, ns)
    ensures Run(env, limits, html, INITIAL) == Parse(NO_FAULT, ns)
  {
    hide NextState, LexOpen, Wf;
    assert html[0..] == Sources(ns) + "";
    assert Tags(INITIAL.stack) == [Root];
    RunsAll(env, limits, html, INITIAL, ns, "");
    assert After(INITIAL, ns).stack[0].children == ns;
  }

  /** The parser accepts exactly the well-formed sources within its bounds, and gives back the
      forest each of them is the source of. */
  lemma ParserCharacterised(env: Env, html: string, ns: seq<Node>)
    ensures ParseOf(env, html) == Parse(NO_FAULT, ns)
       <==> CleanText(html) && Accepts(env, LIMITS, html, ns)
  {
    hide Run, Accepts, Tags, WfTop;
    var run := Run(env, LIMITS, html, INITIAL);
    if run.trace.Clean() {
      InitiallyRead(env, LIMITS, html);
      RunSound(env, LIMITS, html, INITIAL);
    }
    if Accepts(env, LIMITS, html, ns) {
      RunComplete(env, LIMITS, html, ns);
    }
  }

  lemma InitiallyRead(env: Env, limits: Limits, html: string)
    ensures ReadSoFar(env, limits, html, INITIAL)
  {
    assert INITIAL.stack[..0] == [];
    assert Sources([]) == "" && TokensOf([]) == 0;
    assert StackSource(INITIAL.stack) == "";
    assert StackTokens(INITIAL.stack) == StackTokens(INITIAL.stack[..0]) + 0;
    assert WfTop(env, limits, INITIAL.stack);
  }

  /** No two well-formed forests have the same source, whatever their size. */
  lemma {:induction false} SourcesInjective(env: Env, a: seq<Node>, b: seq<Node>)
    requires WfAll(env, a, [Root]) && WfAll(env, b, [Root])
    requires Sources(a) == Sources(b)
    ensures a == b
  {
    hide Run, Wf, WfAll;
    var limits := Limits(TokensOf(a) + TokensOf(b), 1 + HeightOf(a) + HeightOf(b));
    RunComplete(env, limits, Sources(a), a);
    RunComplete(env, limits, Sources(a), b);
  }
}
