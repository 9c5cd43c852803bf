/** Printed text and inline runs are read back as they were: the canonical nodes of inline
    content, their sources, their well-formedness and what they decode to. */
module NativeCanon {
  import opened Text
  import opened NativeFaults
  import opened NativeHtml
  import opened NativeHtmlTheory
  import opened NativeDecode
  import opened NativeSerialize

  // ---------- Escaping ----------

  lemma {:induction false} PlainStep(c: char, t: string)
    requires c != '&'
    ensures Entities([c] + t)
         == Unescaped([c] + Entities(t).value, Entities(t).unsupported, Entities(t).raw)
  {
    assert ([c] + t)[1..] == t;
  }

  lemma {:induction false} ReferenceStep(c: char, name: string, t: string)
    requires Named(name) == Some(c) && forall k :: 0 <= k < |name| ==> IsReferenceChar(name[k])
    ensures Entities("&" + name + ";" + t)
         == Unescaped([c] + Entities(t).value, Entities(t).unsupported, Entities(t).raw)
  {
    hide Named, IsSpace;
    var s, n := "&" + name + ";" + t, 1 + |name|;
    assert s[n] == ';';
    assert forall k :: 1 <= k < n ==> s[k] == name[k - 1];
    assert End(s, 1, IsReferenceChar) == n;
    assert s[1..n] == name;
    assert s[n + 1..] == t;
  }

  lemma Apostrophe()
    ensures Named("#39") == Some('\'')
  {
    assert "#39"[1..] == "39" && "39"[..1] == "3" && "3"[..0] == "";
    assert NumberIn("3", 10) == 3;
    assert NumberIn("39", 10) == 39;
  }

  lemma {:induction false} EscapedChar(c: char, t: string)
    ensures Entities(EscapeChar(c) + t)
         == Unescaped([c] + Entities(t).value, Entities(t).unsupported, Entities(t).raw)
  {
    hide Entities;
    if c == '&' { NamedRead(c, "amp", t); }
    else if c == '<' { NamedRead(c, "lt", t); }
    else if c == '>' { NamedRead(c, "gt", t); }
    else if c == '"' { NamedRead(c, "quot", t); }
    else if c == '\'' {
      Apostrophe();
      assert "&#39;" == "&" + "#39" + ";";
      ReferenceStep(c, "#39", t);
    }
    else { PlainStep(c, t); }
  }

  lemma {:induction false} NamedRead(c: char, name: string, t: string)
    requires EscapeChar(c) == "&" + name + ";" && Named(name) == Some(c)
    requires forall k :: 0 <= k < |name| ==> IsReferenceChar(name[k])
    ensures Entities(EscapeChar(c) + t)
         == Unescaped([c] + Entities(t).value, Entities(t).unsupported, Entities(t).raw)
  {
    hide Entities, Named, EscapeChar, IsReferenceChar;
    ReferenceStep(c, name, t);
  }

  /** Decoding undoes escaping, for every text. */
  lemma {:induction false} EntitiesEscape(s: string)
    ensures Entities(Escape(s)) == Unescaped(s, false, true)
  {
    hide EscapeChar;
    if s != "" {
      hide Entities;
      EntitiesEscape(s[1..]);
      EscapedChar(s[0], Escape(s[1..]));
      assert s == [s[0]] + s[1..];
    }
  }

  lemma {:induction false} EscapeOf(a: string, b: string)
    ensures Escape(a + b) == Escape(a) + Escape(b)
  {
    if a == "" {
      assert a + b == b;
    } else {
      assert (a + b)[1..] == a[1..] + b;
      EscapeOf(a[1..], b);
    }
  }

  lemma {:induction false} EscapedSafe(s: string)
    ensures '<' !in Escape(s) && '"' !in Escape(s)
    ensures |Escape(s)| >= |s|
    ensures '\n' !in s ==> '\n' !in Escape(s)
  {
    hide EscapeChar;
    if s != "" {
      CharSafe(s[0]);
      EscapedSafe(s[1..]);
      assert Escape(s) == EscapeChar(s[0]) + Escape(s[1..]);
    }
  }

  lemma CharSafe(c: char)
    ensures var e := EscapeChar(c); |e| >= 1 && '<' !in e && '"' !in e && (c != '\n' ==> '\n' !in e)
  {
  }

  predicate NoSpecial(s: string) {
    forall i :: 0 <= i < |s| ==> |EscapeChar(s[i])| == 1
  }

  lemma {:induction false} EscapePlain(s: string)
    requires NoSpecial(s)
    ensures Escape(s) == s
  {
    if s != "" { EscapePlain(s[1..]); }
  }

  lemma {:induction false} BreaksOf(a: string, b: string)
    ensures Breaks(a + b) == Breaks(a) + Breaks(b)
  {
    if a == "" {
      assert a + b == b;
    } else {
      assert (a + b)[1..] == a[1..] + b;
      BreaksOf(a[1..], b);
    }
  }

  lemma {:induction false} BreaksPlain(s: string)
    requires '\n' !in s
    ensures Breaks(s) == s
  {
    if s != "" { BreaksPlain(s[1..]); }
  }

  // ---------- Printed tags ----------

  datatype KeyValue = KeyValue(key: string, value: string)

  function AttrText(ps: seq<KeyValue>): string {
    if ps == [] then ""
    else Attribute(ps[0].key, Escape(ps[0].value)) + AttrText(ps[1..])
  }

  function AttrMap(ps: seq<KeyValue>, attrs: Attrs): Attrs {
    if ps == [] then attrs else AttrMap(ps[1..], attrs[ps[0].key := ps[0].value])
  }

  predicate NameText(s: string) {
    s != "" && IsLetter(s[0]) && forall i :: 0 <= i < |s| ==> IsNameChar(s[i]) && LowerChar(s[i]) == s[i]
  }

  predicate AttrsFine(env: Env, tag: Tag, ps: seq<KeyValue>, seen: set<string>) {
    ps != [] ==>
      && NameText(ps[0].key)
      && AttrTrace(env, tag, seen, ps[0].key, Escape(ps[0].value)).Clean()
      && AttrsFine(env, tag, ps[1..], seen + {ps[0].key})
  }

  /** The characters of a printed attribute up to its value. */
  lemma AttrNameAt(s: string, i: nat, key: string, rest: string)
    requires i <= |s| && s[i..] == " " + key + "=\"" + rest && NameText(key)
    ensures var n := i + 1 + |key|;
            && n + 1 < |s| && s[i] == ' ' && s[i + 1..n] == key && s[n] == '=' && s[n + 1] == '"' && s[i + 1] == key[0]
            && (forall k :: i + 1 <= k < n ==> IsNameChar(s[k]) && !IsSpace(s[k])) && Lower(key) == key
            && IsSpace(s[i]) && !IsSpace(s[n]) && !IsSpace(s[n + 1]) && !IsNameChar(s[n])
  {
    var n := i + 1 + |key|;
    assert s[i] == s[i..][0] && s[i + 1] == s[i..][1] == key[0];
    assert s[n] == s[i..][1 + |key|] == '=' && s[n + 1] == s[i..][2 + |key|] == '"';
    assert s[i + 1..n] == s[i..][1..1 + |key|] == key;
    assert forall k :: i + 1 <= k < n ==> s[k] == s[i + 1..n][k - i - 1];
  }

  lemma AttrNameRead(s: string, i: nat, key: string, rest: string)
    requires i <= |s| && s[i..] == " " + key + "=\"" + rest && NameText(key)
    ensures LexTagEnd(s, i) == None
    ensures LexAttrName(s, i) == Some((key, i + |key| + 2))
  {
    hide IsSpace, IsNameChar;
    var n, e := i + 1 + |key|, i + 2 + |key|;
    AttrNameAt(s, i, key, rest);
    EndIs(s, i, i + 1, IsSpace);
    EndIs(s, i + 1, n, IsNameChar);
    EndIs(s, n, n, IsSpace);
    EndIs(s, e, e, IsSpace);
  }

  lemma QuotedRead(s: string, i: nat, value: string, rest: string)
    requires i <= |s| && s[i..] == "\"" + value + "\"" + rest && '"' !in value
    ensures LexValue(s, i) == Some((value, i + 2 + |value|))
  {
    var e, t := i + 1 + |value|, s[i..];
    assert t[0] == '"' && t[1 + |value|] == '"' && |t| == 2 + |value| + |rest|;
    assert s[i] == t[0] && s[e] == t[1 + |value|];
    assert s[i + 1..e] == s[i..][1..1 + |value|] == value;
    assert forall k :: i + 1 <= k < e ==> s[k] == s[i + 1..e][k - i - 1];
    EndIs(s, i + 1, e, NotDoubleQuote);
  }

  /** A printed attribute, split before and after the quote that opens its value. */
  lemma AttributeParts(key: string, value: string, rest: string)
    ensures var s := Attribute(key, value) + rest;
            && s == " " + key + "=\"" + (value + "\"" + rest)
            && |s| == |key| + 4 + |value| + |rest| && s[|key| + 2..] == "\"" + value + "\"" + rest
  {
    var s := Attribute(key, value) + rest;
    assert s == (" " + key + "=") + ("\"" + value + "\"" + rest);
  }

  lemma AttrRead(s: string, i: nat, p: KeyValue, rest: string)
    requires i <= |s| && s[i..] == Attribute(p.key, Escape(p.value)) + rest && NameText(p.key)
    ensures LexTagEnd(s, i) == None
    ensures LexAttr(s, i) == Some(RawAttr(p.key, Escape(p.value), |s| - |rest|))
  {
    hide LexValue, LexAttrName;
    EscapedSafe(p.value);
    var v := i + |p.key| + 2;
    AttributeParts(p.key, Escape(p.value), rest);
    AttrNameRead(s, i, p.key, Escape(p.value) + "\"" + rest);
    assert s[v..] == s[i..][|p.key| + 2..];
    QuotedRead(s, v, Escape(p.value), rest);
  }

  lemma {:induction false} AttrsRead(env: Env, tag: Tag, s: string, i: nat, ps: seq<KeyValue>, tail: string,
                                     attrs: Attrs)
    requires i <= |s| && s[i..] == AttrText(ps) + tail
    requires tail == ">" || (tail == " />" && tag.Void())
    requires AttrsFine(env, tag, ps, attrs.Keys)
    ensures LexAttrs(env, tag, s, i, attrs) == TagRest(NO_FAULT, AttrMap(ps, attrs), false, |s|)
    decreases ps
  {
    hide NameText, Trace.Then, Trace.Clean, NO_FAULT, Stopped, Entities, Tag.Void, LexTagEnd, LexAttr, AttrTrace,
      LexAttrs, Escape, Attribute, AttrsFine, WithAttr;
    AttrsStep(env, tag, s, i, attrs);
    if ps == [] {
      assert s[i..] == tail;
      TagEndRead(s, i, tail);
    } else {
      var p, rest := ps[0], AttrText(ps[1..]) + tail;
      assert s[i..] == Attribute(p.key, Escape(p.value)) + rest;
      FineFirst(env, tag, ps, attrs.Keys);
      AttrRead(s, i, p, rest);
      EntitiesEscape(p.value);
      FineAttr(env, tag, attrs.Keys, RawAttr(p.key, Escape(p.value), |s| - |rest|), AttrMap(ps, attrs), |s|);
      var end := |s| - |rest|;
      assert s[end..] == s[i..][end - i..] == rest by { AttributeParts(p.key, Escape(p.value), rest); }
      assert attrs[p.key := p.value].Keys == attrs.Keys + {p.key};
      AttrsRead(env, tag, s, end, ps[1..], tail, attrs[p.key := p.value]);
    }
  }

  lemma FineFirst(env: Env, tag: Tag, ps: seq<KeyValue>, seen: set<string>)
    requires AttrsFine(env, tag, ps, seen) && ps != []
    ensures NameText(ps[0].key) && AttrTrace(env, tag, seen, ps[0].key, Escape(ps[0].value)).Clean()
    ensures AttrsFine(env, tag, ps[1..], seen + {ps[0].key})
  {
  }

  /** An attribute without a fault adds nothing to what is read after it. */
  lemma FineAttr(env: Env, tag: Tag, seen: set<string>, a: RawAttr, attrs: Attrs, end: nat)
    requires AttrTrace(env, tag, seen, a.key, a.value).Clean() && !Entities(a.value).unsupported
    ensures WithAttr(env, tag, seen, a, TagRest(NO_FAULT, attrs, false, end)) == TagRest(NO_FAULT, attrs, false, end)
  {
    hide AttrTrace, Entities;
  }

  lemma TagEndRead(s: string, i: nat, tail: string)
    requires i <= |s| && s[i..] == tail && (tail == ">" || tail == " />")
    ensures LexTagEnd(s, i) == Some((tail == " />", |s|))
  {
    assert forall k :: 0 <= k < |tail| ==> s[i..][k] == s[i + k] == tail[k];
    assert End(s, i, IsSpace) == if tail == ">" then i else i + 1;
  }

  function OpenText(name: string, ps: seq<KeyValue>, tail: string): string { "<" + name + AttrText(ps) + tail }

  lemma AttrTextStarts(ps: seq<KeyValue>, tail: string)
    requires tail == ">" || tail == " />"
    ensures var rest := AttrText(ps) + tail; rest != "" && !IsNameChar(rest[0])
  {
    assert ps != [] ==> AttrText(ps)[0] == ' ';
  }

  lemma NameRead(s: string, name: string, rest: string)
    requires s == "<" + name + rest && NameText(name) && rest != "" && !IsNameChar(rest[0])
    ensures var n := 1 + |name|;
            NameEnd(s, 1) == n > 1 && s[1..n] == name && Lower(name) == name && s[n..] == rest
  {
    hide IsNameChar;
    var n := 1 + |name|;
    assert s[1..n] == name && s[n..] == rest && s[n] == rest[0];
    assert forall k :: 1 <= k < n ==> s[k] == s[1..n][k - 1] && IsNameChar(s[k]);
    EndIs(s, 1, n, IsNameChar);
  }

  /** A printed opening tag is read back without a fault. */
  lemma {:induction false} OpenRead(env: Env, name: string, ps: seq<KeyValue>, tail: string)
    requires NameText(name) && !TagOf(name).Forbidden()
    requires tail == ">" || (tail == " />" && TagOf(name).Void())
    requires AttrsFine(env, TagOf(name), ps, {})
    ensures LexOpen(env, OpenText(name, ps, tail))
         == OpenTag(NO_FAULT, TagOf(name), TagRest(NO_FAULT, AttrMap(ps, map[]), false, |OpenText(name, ps, tail)|))
  {
    hide AttrText, TagOf;
    var s, rest := OpenText(name, ps, tail), AttrText(ps) + tail;
    assert s == "<" + name + rest && s[0] == '<';
    AttrTextStarts(ps, tail);
    NameRead(s, name, rest);
    var none: Attrs := map[];
    assert none.Keys == {};
    AttrsRead(env, TagOf(name), s, 1 + |name|, ps, tail, none);
  }

  function CloseText(name: string): string { "</" + name + ">" }

  lemma CloseRead(name: string)
    requires NameText(name)
    ensures LexClose(CloseText(name)) == Some((name, |CloseText(name)|))
  {
    var s, n := CloseText(name), 2 + |name|;
    assert forall k :: 2 <= k < n ==> s[k] == name[k - 2];
    assert s[n] == '>';
    assert End(s, 2, IsNameChar) == n && End(s, n, IsSpace) == n;
    assert s[2..n] == name && Lower(name) == name;
  }

  /** The attributes the serializer prints. */
  lemma {:induction false} AttrFine(env: Env, tag: Tag, seen: set<string>, key: string, value: string)
    requires CleanText(value) && key !in seen && key != "dir" && key != "src"
    requires AllowedAttr(key, tag) && !ActiveAttr(key)
    requires key == "style" ==> env.safeStyle(value)
    requires key == "href" ==> UrlTrace(env, value, false).Clean()
    ensures AttrTrace(env, tag, seen, key, Escape(value)).Clean()
  {
    hide AllowedAttr, ActiveAttr, UrlTrace, FetchingAttr, Entities;
    EntitiesEscape(value);
  }

  lemma {:induction false} EscapeClean(s: string)
    requires CleanText(s)
    ensures CleanText(Escape(s))
  {
    if s != "" {
      EscapeClean(s[1..]);
      assert CleanChar(s[0]);
      assert CleanText(EscapeChar(s[0]));
    }
  }

  lemma NameClean(s: string)
    requires NameText(s)
    ensures CleanText(s)
  {
  }

  lemma {:induction false} AttrTraceClean(env: Env, tag: Tag, seen: set<string>, key: string, value: string)
    requires AttrTrace(env, tag, seen, key, Escape(value)).Clean()
    ensures CleanText(value)
  {
    hide AllowedAttr, ActiveAttr, UrlTrace, FetchingAttr, Entities;
    EntitiesEscape(value);
  }

  lemma {:induction false} AttrTextClean(env: Env, tag: Tag, ps: seq<KeyValue>, seen: set<string>)
    requires AttrsFine(env, tag, ps, seen)
    ensures CleanText(AttrText(ps))
  {
    hide AttrTrace;
    if ps != [] {
      NameClean(ps[0].key);
      AttrTraceClean(env, tag, seen, ps[0].key, ps[0].value);
      EscapeClean(ps[0].value);
      AttrTextClean(env, tag, ps[1..], seen + {ps[0].key});
    }
  }

  lemma OpenClean(name: string, ps: seq<KeyValue>, tail: string)
    requires CleanText(name) && CleanText(AttrText(ps)) && CleanText(tail)
    ensures CleanText(OpenText(name, ps, tail))
  {
    hide AttrText;
  }

  // ---------- Printed elements ----------

  /** A printed element and what it is read back as. */
  function El(name: string, ps: seq<KeyValue>, children: seq<Node>): Node {
    Element(TagOf(name), AttrMap(ps, map[]), OpenText(name, ps, ">"), children, CloseText(name),
            OpenText(name, ps, ">") + Sources(children) + CloseText(name), false)
  }

  /** No text in `ns` and no attribute below it holds an unsupported character reference. */
  predicate Supported(ns: seq<Node>) {
    forall i :: 0 <= i < |ns| ==> if ns[i].TextNode? then !ns[i].unsupported else !Unsupported(ns[i])
  }

  lemma {:induction false} ElWf(env: Env, name: string, ps: seq<KeyValue>, children: seq<Node>, ctx: seq<Tag>)
    requires NameText(name) && !TagOf(name).Forbidden() && !TagOf(name).Void()
    requires AttrsFine(env, TagOf(name), ps, {}) && Supported(children)
    requires ctx != [] && StructTrace(ctx, TagOf(name)).Clean()
    requires WfAll(env, children, ctx + [TagOf(name)])
    ensures Wf(env, El(name, ps, children), ctx) && !Unsupported(El(name, ps, children))
    ensures Source(El(name, ps, children)) == OpenText(name, ps, ">") + Sources(children) + CloseText(name)
  {
    hide TagOf, StructTrace, LexOpen, LexClose, AttrsFine, OpenText, CloseText, AttrMap, WfAll, Tag.Void, Tag.Forbidden;
    OpenRead(env, name, ps, ">");
    CloseRead(name);
    OpenStarts(name, ps, ">");
  }

  lemma {:induction false} ElSource(name: string, ps: seq<KeyValue>, children: seq<Node>)
    requires Supported(children)
    ensures Source(El(name, ps, children)) == OpenText(name, ps, ">") + Sources(children) + CloseText(name)
    ensures !Unsupported(El(name, ps, children))
  {
    hide TagOf, OpenText, CloseText, AttrMap;
  }

  lemma OpenStarts(name: string, ps: seq<KeyValue>, tail: string)
    ensures OpenText(name, ps, tail) != "" && OpenText(name, ps, tail)[0] == '<'
  {
  }

  lemma {:induction false} SourcesOf(a: seq<Node>, b: seq<Node>)
    ensures Sources(a + b) == Sources(a) + Sources(b)
  {
    if a == [] {
      assert a + b == b;
    } else {
      assert (a + b)[1..] == a[1..] + b;
      SourcesOf(a[1..], b);
    }
  }

  lemma {:induction false} WfJoin(env: Env, a: seq<Node>, b: seq<Node>, ctx: seq<Tag>)
    requires ctx != [] && WfAll(env, a, ctx) && WfAll(env, b, ctx)
    requires a != [] && b != [] && a[|a| - 1].TextNode? ==> b[0].Element?
    ensures WfAll(env, a + b, ctx)
  {
    hide Wf;
    if a == [] {
      assert a + b == b;
    } else {
      assert (a + b)[1..] == a[1..] + b;
      assert |a| > 1 ==> (a + b)[1] == a[1];
      WfJoin(env, a[1..], b, ctx);
    }
  }

  lemma SupportedOf(a: seq<Node>, b: seq<Node>)
    requires Supported(a) && Supported(b)
    ensures Supported(a + b)
  {
    hide Unsupported;
  }
}
