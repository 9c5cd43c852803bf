/** What the parser never lets through, in names of its own: no active or fetching markup, no link
    that a browser repairs, and no structure that a browser rearranges. */
module NativeSafety {
  import opened Text
  import opened NativeFaults
  import opened NativeHtml
  import opened NativeHtmlTheory
  import opened NativeDecode

  // ---------- Safe attributes ----------

  const ACTIVE := {"action", "formaction", "ping", "poster", "srcset"}

  const FETCHING := {"background", "dynsrc", "http-equiv", "lowsrc", "manifest"}

  /** A name that runs a script, or sends or fetches something when it is shown or used. */
  predicate Active(key: string) { "on" <= key || key in ACTIVE || key in FETCHING }

  /** `data-` or `aria-`, and then letters, digits and hyphens. */
  predicate Decoration(key: string) {
    && |key| > 5 && (key[..5] == "data-" || key[..5] == "aria-")
    && forall i :: 5 <= i < |key| ==> 'a' <= key[i] <= 'z' || '0' <= key[i] <= '9' || key[i] == '-'
  }

  /** An attribute that is kept where it stands. */
  predicate Inert(key: string, tag: Tag) {
    || Decoration(key) || key in {"class", "title", "style", "dir"}
    || (key == "id" && tag == P)
    || (key in {"alt", "src"} && tag == Img)
    || (key in {"width", "height"} && tag in {Img, Hr})
    || (key in {"href", "rel", "target"} && tag == A)
    || (key in {"colspan", "rowspan"} && tag in {Th, Td})
    || (key in {"start", "reversed"} && tag == Ol)
  }

  predicate Begins(s: string, p: string) { |p| <= |s| && Lower(s[..|p|]) == p }

  /** A web or mail address in which a browser repairs nothing. */
  predicate SafeUrl(s: string) {
    && (Begins(s, "http://") || Begins(s, "https://") || Begins(s, "mailto:"))
    && forall c :: c in s ==> !IsSpace(c) && c != '\\'
  }

  predicate SafeAttr(env: Env, tag: Tag, key: string, value: string) {
    && Inert(key, tag) && !Active(key) && CleanText(value)
    && (key in {"href", "src"} ==> SafeUrl(value) && env.parseUrl(value).Plain?)
    && (key == "style" ==> env.safeStyle(value))
    && (key == "dir" ==> Lower(value) in {"ltr", "rtl", "auto"})
  }

  lemma AttrSafe(env: Env, tag: Tag, seen: set<string>, key: string, raw: string)
    requires AttrTrace(env, tag, seen, key, raw).Clean()
    ensures SafeAttr(env, tag, key, Entities(raw).value)
  {
    hide Entities, CleanTrace, Trace.Then, UrlTrace;
    var value := Entities(raw).value;
    AllowedInert(key, tag);
    if key == "href" || key == "src" { UrlSafe(env, value, key == "src"); }
  }

  lemma AllowedInert(key: string, tag: Tag)
    requires AllowedAttr(key, tag) && !ActiveAttr(key)
    ensures Inert(key, tag) && !Active(key)
  {
    hide Decoration, IsDataName, InertFor, ActiveAttr;
    NotActive(key);
    if IsDataName(key, "data-") { Decorates(key, "data-"); }
    else if IsDataName(key, "aria-") { Decorates(key, "aria-"); }
    else if InertFor(key, tag) { InertInert(key, tag); }
    else { NotFetching(key); }
  }

  lemma NotActive(key: string)
    requires !ActiveAttr(key)
    ensures !("on" <= key) && key !in ACTIVE
  {
  }

  lemma NotFetching(key: string)
    requires key in {"class", "title", "style", "dir", "id"}
    ensures key !in FETCHING
  {
  }

  lemma Decorates(key: string, prefix: string)
    requires IsDataName(key, prefix) && (prefix == "data-" || prefix == "aria-")
    ensures Decoration(key) && key !in FETCHING
  {
    assert forall i :: 5 <= i < |key| ==> key[i] in key[5..];
    assert forall i :: 0 <= i < 5 ==> key[i] == key[..5][i] == prefix[i];
    assert (key[0] == 'd' && key[1] == 'a') || key[0] == 'a';
  }

  lemma InertInert(key: string, tag: Tag)
    requires InertFor(key, tag)
    ensures Inert(key, tag) && key !in FETCHING
  {
    hide Decoration;
  }

  lemma UrlSafe(env: Env, s: string, fetched: bool)
    requires UrlTrace(env, s, fetched).Clean()
    ensures SafeUrl(s) && env.parseUrl(s).Plain?
  {
    hide CleanTrace, InertLink, IsSpace;
  }

  lemma InertAllowed(key: string, tag: Tag)
    requires Inert(key, tag) && !Active(key)
    ensures AllowedAttr(key, tag) && !ActiveAttr(key)
  {
    hide Decoration, IsDataName, InertFor;
    if Decoration(key) { Decorated(key); }
    else if key !in {"class", "title", "style", "dir"} && !(key == "id" && tag == P) { InertListed(key, tag); }
  }

  lemma Decorated(key: string)
    requires Decoration(key)
    ensures IsDataName(key, "data-") || IsDataName(key, "aria-")
  {
    assert forall c :: c in key[5..] ==> exists i :: 5 <= i < |key| && key[i] == c;
  }

  lemma InertListed(key: string, tag: Tag)
    requires Inert(key, tag) && !Decoration(key) && key !in {"class", "title", "style", "dir"} && !(key == "id" && tag == P)
    ensures InertFor(key, tag)
  {
    hide Decoration;
  }

  /** An attribute is accepted exactly when it is safe, its name has not come before, and what its value
      says is beyond doubt where it is a link or a style. */
  lemma AttrExact(env: Env, tag: Tag, seen: set<string>, key: string, raw: string)
    ensures AttrTrace(env, tag, seen, key, raw).Clean() <==>
              && SafeAttr(env, tag, key, Entities(raw).value) && key !in seen
              && (key in {"href", "src", "style"} ==> !Entities(raw).unsupported)
  {
    var d := Entities(raw);
    hide Entities, CleanTrace, UrlTrace, IsDirection, Inert, Active;
    if AttrTrace(env, tag, seen, key, raw).Clean() {
      AttrSafe(env, tag, seen, key, raw);
    } else if SafeAttr(env, tag, key, d.value) {
      InertAllowed(key, tag);
      if key == "href" || key == "src" { UrlAccepted(env, d.value, key == "src"); }
      DirectionListed(d.value);
    }
  }

  lemma DirectionListed(s: string)
    ensures IsDirection(s) <==> Lower(s) in {"ltr", "rtl", "auto"}
  {
  }

  lemma UrlAccepted(env: Env, s: string, fetched: bool)
    requires SafeUrl(s) && env.parseUrl(s).Plain? && CleanText(s)
    ensures UrlTrace(env, s, fetched).Clean()
  {
    hide CleanTrace, IsSpace, InertLink, CleanText;
    CleanIs(s);
  }

  lemma CleanIs(s: string)
    ensures CleanTrace(s).Clean() <==> CleanText(s)
  {
  }

  ghost predicate SafeAttrs(env: Env, tag: Tag, attrs: Attrs) {
    forall key :: key in attrs ==> SafeAttr(env, tag, key, attrs[key])
  }

  lemma {:induction false} AttrsSafe(env: Env, tag: Tag, s: string, i: nat, attrs: Attrs)
    requires i <= |s| && LexAttrs(env, tag, s, i, attrs).trace.Clean() && SafeAttrs(env, tag, attrs)
    ensures SafeAttrs(env, tag, LexAttrs(env, tag, s, i, attrs).attrs)
    decreases |s| - i
  {
    hide LexAttrs, LexTagEnd, LexAttr, AttrTrace, SafeAttr, Entities;
    AttrsStep(env, tag, s, i, attrs);
    if LexTagEnd(s, i) == None && LexAttr(s, i).Some? {
      var a := LexAttr(s, i).value;
      AttrSafe(env, tag, attrs.Keys, a.key, a.value);
      AttrsSafe(env, tag, s, a.end, attrs[a.key := Entities(a.value).value]);
    }
  }

  // ---------- Safe elements ----------

  const FORBIDDEN := {
    "applet", "audio", "base", "embed", "form", "frame", "frameset", "iframe", "link", "math", "noembed", "noframes",
    "object", "portal", "plaintext", "script", "source", "style", "title", "svg", "textarea", "track", "video", "xmp" }

  const VOIDS := {
    "area", "base", "br", "col", "embed", "hr", "img", "input", "link", "meta", "param", "source", "track", "wbr" }

  /** The name in an opening tag. */
  function OpenName(open: string): string
    requires open != ""
  {
    Lower(open[1..NameEnd(open, 1)])
  }

  const HEADINGS := {H1, H2, H3, H4, H5, H6}

  const PHRASING := {Strong, B, Em, I, U, S, Strike, Del, Code, A, Br, SpanTag, Img, Sup, Sub, Mark}

  predicate NestsText(parent: Tag, tag: Tag) { parent == P || parent in HEADINGS + PHRASING ==> tag in PHRASING }

  predicate NestsChild(parent: Tag, tag: Tag) {
    && (parent in {Ul, Ol} ==> tag == Li)
    && (parent == Table ==> tag in {Thead, Tbody, Tfoot, Tr})
    && (parent in {Thead, Tbody, Tfoot} ==> tag == Tr)
    && (parent == Tr ==> tag in {Th, Td})
  }

  predicate NestsParent(parent: Tag, tag: Tag) {
    !parent.Other? ==>
      && (tag == Li ==> parent in {Ul, Ol})
      && (tag in {Thead, Tbody, Tfoot} ==> parent == Table)
      && (tag == Tr ==> parent in {Table, Thead, Tbody, Tfoot})
      && (tag in {Th, Td} ==> parent == Tr)
  }

  /** Where a browser leaves an element of this name; it knows nothing of names it does not know. */
  predicate Nests(parent: Tag, tag: Tag) {
    tag.Root? || tag.Other? || (NestsText(parent, tag) && NestsChild(parent, tag) && NestsParent(parent, tag))
  }

  ghost predicate SafeNode(env: Env, n: Node, parent: Tag, linked: bool)
    decreases n, 0
  {
    match n
    case TextNode(_, value, _) =>
      CleanText(value) && (parent in {Ul, Ol, Table, Thead, Tbody, Tfoot, Tr} ==> Blank(value))
    case Element(tag, attrs, open, children, _, _, _) =>
      && open != "" && OpenName(open) == TagName(tag) && OpenName(open) !in FORBIDDEN
      && (OpenName(open) in VOIDS ==> children == [])
      && SafeAttrs(env, tag, attrs)
      && Nests(parent, tag) && !(tag == A && linked)
      && SafeNodes(env, children, tag, linked || tag == A)
  }

  /** Every element of the forest is safe, inside an element `parent`, and `linked` inside a link. */
  ghost predicate SafeNodes(env: Env, ns: seq<Node>, parent: Tag, linked: bool)
    decreases ns, 1
  {
    ns != [] ==> SafeNode(env, ns[0], parent, linked) && SafeNodes(env, ns[1..], parent, linked)
  }

  lemma NameOfTag(name: string)
    ensures TagName(TagOf(name)) == name
  {
  }

  lemma ForbiddenNamed(name: string)
    ensures TagOf(name).Forbidden() <==> name in FORBIDDEN
  {
    hide TagOf, ForbiddenName, TagName;
    NameOfTag(name);
    ForbiddenListed(name);
    if name in FORBIDDEN { ForbiddenUnknown(name); }
    OtherNamed(TagOf(name));
  }

  lemma ForbiddenListed(name: string)
    ensures ForbiddenName(name) <==> name in FORBIDDEN
  {
  }

  lemma ForbiddenUnknown(name: string)
    requires name in FORBIDDEN
    ensures TagOf(name).Other?
  {
    hide TagOf;
    if name in {"applet", "audio", "base", "embed", "form", "frame", "frameset", "iframe"} { EmbedsUnknown(name); }
    else if name in {"link", "math", "noembed", "noframes", "object", "portal", "plaintext", "script"} { ScriptsUnknown(name); }
    else { RestUnknown(name); }
  }

  lemma EmbedsUnknown(name: string)
    requires name in {"applet", "audio", "base", "embed", "form", "frame", "frameset", "iframe"}
    ensures TagOf(name).Other?
  {
  }

  lemma ScriptsUnknown(name: string)
    requires name in {"link", "math", "noembed", "noframes", "object", "portal", "plaintext", "script"}
    ensures TagOf(name).Other?
  {
  }

  lemma RestUnknown(name: string)
    requires name in {"source", "style", "title", "svg", "textarea", "track", "video", "xmp"}
    ensures TagOf(name).Other?
  {
  }

  lemma OtherNamed(tag: Tag)
    ensures tag.Other? ==> tag.name == TagName(tag)
  {
  }

  lemma VoidNamed(name: string)
    ensures TagOf(name).Void() <==> name in VOIDS
  {
  }

  lemma StructNests(ctx: seq<Tag>, tag: Tag)
    requires ctx != [] && StructTrace(ctx, tag).Clean()
    ensures Nests(ctx[|ctx| - 1], tag) && !(tag == A && A in ctx)
  {
    hide Tag.Phrasing, Tag.Heading, ChildAllowed, ParentAllowed, ClosesOpenListItem, Nests;
    var parent := ctx[|ctx| - 1];
    if tag.Known() {
      PhrasingNests(parent, tag);
      ChildNests(parent, tag);
      ParentNests(parent, tag);
    }
    KnownNests(parent, tag);
  }

  lemma PhrasingNests(parent: Tag, tag: Tag)
    requires !((parent.P? || parent.Heading() || parent.Phrasing()) && !tag.Phrasing())
    ensures NestsText(parent, tag)
  {
  }

  lemma ChildNests(parent: Tag, tag: Tag)
    requires ChildAllowed(parent, tag)
    ensures NestsChild(parent, tag)
  {
  }

  lemma ParentNests(parent: Tag, tag: Tag)
    requires ParentAllowed(parent, tag) || !(parent.Root? || parent.Known())
    ensures NestsParent(parent, tag)
  {
  }

  lemma KnownNests(parent: Tag, tag: Tag)
    requires tag.Known() ==> NestsText(parent, tag) && NestsChild(parent, tag) && NestsParent(parent, tag)
    ensures Nests(parent, tag)
  {
    hide NestsText, NestsChild, NestsParent;
  }

  lemma NestsAllowed(parent: Tag, tag: Tag)
    requires Nests(parent, tag) && tag.Known()
    ensures !((parent.P? || parent.Heading() || parent.Phrasing()) && !tag.Phrasing())
    ensures ChildAllowed(parent, tag) && (ParentAllowed(parent, tag) || !(parent.Root? || parent.Known()))
  {
    hide NestsText, NestsChild, NestsParent, Tag.Phrasing, Tag.Heading, ChildAllowed, ParentAllowed;
    TextNests(parent, tag);
    NestsAsChild(parent, tag);
    NestsInParent(parent, tag);
  }

  lemma TextNests(parent: Tag, tag: Tag)
    requires NestsText(parent, tag)
    ensures !((parent.P? || parent.Heading() || parent.Phrasing()) && !tag.Phrasing())
  {
  }

  lemma NestsAsChild(parent: Tag, tag: Tag)
    requires NestsChild(parent, tag)
    ensures ChildAllowed(parent, tag)
  {
  }

  lemma NestsInParent(parent: Tag, tag: Tag)
    requires NestsParent(parent, tag)
    ensures ParentAllowed(parent, tag) || !(parent.Root? || parent.Known())
  {
  }

  /** A known element is accepted exactly where a browser leaves it, outside links if it is one. */
  lemma PlaceExact(ctx: seq<Tag>, tag: Tag)
    requires ctx != [] && ctx[|ctx| - 1] != Other("constructor")
    ensures StructTrace(ctx, tag).Clean() <==> Nests(ctx[|ctx| - 1], tag) && !(tag == A && A in ctx)
  {
    if StructTrace(ctx, tag).Clean() {
      StructNests(ctx, tag);
    } else if Nests(ctx[|ctx| - 1], tag) {
      hide Tag.Phrasing, Tag.Heading, ChildAllowed, ParentAllowed, ClosesOpenListItem, Nests;
      if tag.Known() { NestsAllowed(ctx[|ctx| - 1], tag); }
    }
  }

  /** Text is accepted exactly when it is clean, and blank inside tables and lists. */
  lemma TextExact(parent: Tag, value: string)
    ensures TextTrace(parent, value).Clean() <==>
              CleanText(value) && (parent in {Ul, Ol, Table, Thead, Tbody, Tfoot, Tr} ==> Blank(value))
  {
    hide CleanTrace, Blank, CleanText;
    CleanIs(value);
  }

  // ---------- Every accepted parse ----------

  lemma OpenSafe(env: Env, n: Node)
    requires n.Element? && WellOpened(env, n)
    ensures OpenName(n.open) == TagName(n.tag) && OpenName(n.open) !in FORBIDDEN && SafeAttrs(env, n.tag, n.attrs)
    ensures n.tag.Void() <==> OpenName(n.open) in VOIDS
  {
    hide LexAttrs, TagOf, Tag.Forbidden, Tag.Void, SafeAttr, TagName, NameEnd;
    var name := OpenName(n.open);
    NameOfTag(name);
    ForbiddenNamed(name);
    VoidNamed(name);
    assert n.tag == TagOf(name);
    AttrsSafe(env, n.tag, n.open, NameEnd(n.open, 1), map[]);
  }

  lemma {:induction false} NodeSafe(env: Env, n: Node, ctx: seq<Tag>)
    requires ctx != [] && Wf(env, n, ctx)
    ensures SafeNode(env, n, ctx[|ctx| - 1], A in ctx)
    decreases n, 0
  {
    hide WfAll, SafeNodes, StructTrace, WellOpened, LexClose, TagName, TagOf, Tag.Void, SafeAttrs, Nests, OpenName, Entities;
    match n
    case TextNode(_, value, _) => TextSafe(ctx[|ctx| - 1], value);
    case Element(tag, _, open, children, _, _, _) =>
      assert open != "" by { OpenNotEmpty(env, n); }
      OpenSafe(env, n);
      StructNests(ctx, tag);
      NodesSafe(env, children, ctx + [tag]);
      assert A in ctx + [tag] <==> A in ctx || tag == A;
  }

  lemma OpenNotEmpty(env: Env, n: Node)
    requires n.Element? && WellOpened(env, n)
    ensures n.open != ""
  {
  }

  lemma TextSafe(parent: Tag, value: string)
    requires TextTrace(parent, value).Clean()
    ensures CleanText(value) && (parent in {Ul, Ol, Table, Thead, Tbody, Tfoot, Tr} ==> Blank(value))
  {
    hide CleanTrace, Blank;
  }

  lemma {:induction false} NodesSafe(env: Env, ns: seq<Node>, ctx: seq<Tag>)
    requires ctx != [] && WfAll(env, ns, ctx)
    ensures SafeNodes(env, ns, ctx[|ctx| - 1], A in ctx)
    decreases ns, 1
  {
    hide Wf, SafeNode;
    if ns != [] {
      NodeSafe(env, ns[0], ctx);
      NodesSafe(env, ns[1..], ctx);
    }
  }

  /** Whatever the parser accepts is safe: none of its elements has one of the 24 forbidden names,
      runs a script, or fetches anything but an image; its links are web or mail addresses that a
      browser reads as they are written; no link stands inside a link; and every element stands where
      a browser leaves it. */
  lemma ParseSafe(env: Env, html: string)
    requires ParseOf(env, html).trace.Clean()
    ensures SafeNodes(env, ParseOf(env, html).nodes, Root, false)
  {
    hide ParseOf, WfAll, SafeNodes;
    ParserCharacterised(env, html, ParseOf(env, html).nodes);
    NodesSafe(env, ParseOf(env, html).nodes, [Root]);
  }

  lemma DecodeSafe(env: Env, stored: Stored, b: Binding)
    requires Decode(env, stored, b).Accepted?
    ensures SafeNodes(env, ParseOf(env, stored.data).nodes, Root, false)
  {
    hide ParseOf, SafeNodes, BindingTrace, EnvelopeTrace, BodyTrace, DecodeNodes;
    ParseSafe(env, stored.data);
  }

  // ---------- What a scan that reaches it is refused for ----------

  /** A link that a browser repairs, or one with a scheme that is none of the five accepted ones. */
  predicate BadUrl(s: string) {
    || (exists c :: c in s && (IsSpace(c) || c == '\\'))
    || (HasScheme(s) && Lower(s[..End(s, 0, IsSchemeChar)]) !in {"http", "https", "mailto", "tel", "nn"})
  }

  /** An attribute that no note may have. */
  predicate BadAttr(tag: Tag, key: string, value: string) {
    || "on" <= key || key in ACTIVE || key in FETCHING || (key == "src" && tag != Img)
    || (key in {"href", "src"} && BadUrl(value))
  }

  predicate Hostile(t: Trace) { t.stop.Some? && ClassOf(Stop(t.stop.value)) == FaultClass.Hostile }

  lemma BadUrlStops(env: Env, s: string, fetched: bool)
    requires BadUrl(s)
    ensures Hostile(UrlTrace(env, s, fetched))
  {
    hide CleanTrace, IsSpace;
    if !(exists c :: c in s && (IsSpace(c) || c == '\\')) {
      SchemeRead(s, "http://", "http");
      SchemeRead(s, "https://", "https");
      SchemeRead(s, "mailto:", "mailto");
      SchemeRead(s, "tel:", "tel");
      SchemeRead(s, "nn://", "nn");
    }
  }

  /** A text that begins with a scheme has that scheme. */
  lemma SchemeRead(s: string, prefix: string, scheme: string)
    requires |scheme| < |prefix| && prefix[..|scheme|] == scheme && prefix[|scheme|] == ':'
    requires forall i :: 0 <= i < |scheme| ==> 'a' <= scheme[i] <= 'z'
    ensures StartsWithFold(s, prefix) ==> Lower(s[..End(s, 0, IsSchemeChar)]) == scheme
  {
    if StartsWithFold(s, prefix) {
      var k := |scheme|;
      assert forall i :: 0 <= i <= k ==> Lower(s[..|prefix|])[i] == LowerChar(s[i]) == prefix[i];
      assert forall i :: 0 <= i < k ==> prefix[i] == prefix[..k][i] == scheme[i];
      assert s[k] == ':';
      assert forall i :: 0 <= i < k ==> IsSchemeChar(s[i]);
      EndIs(s, 0, k, IsSchemeChar);
      assert forall i :: 0 <= i < k ==> Lower(s[..k])[i] == scheme[i];
    }
  }

  /** A stretch that stops at nothing but what is hostile. */
  predicate Fair(t: Trace) { t.stop == None || Hostile(t) }

  lemma FairThen(a: Trace, b: Trace)
    requires Fair(a) && Fair(b)
    ensures Fair(a.Then(b)) && (Hostile(a) || Hostile(b) ==> Hostile(a.Then(b)))
  {
  }

  /** What an attribute is refused for by its name alone. */
  function NameTrace(tag: Tag, seen: set<string>, key: string, value: string): Trace {
    CleanTrace(value)
      .Then(Unless(key !in seen, Stopped(DuplicateAttribute)))
      .Then(Unless(!ActiveAttr(key), Stopped(ActiveAttribute)))
      .Then(Unless(AllowedAttr(key, tag) || key != "constructor", Stopped(InternalFailure)))
      .Then(Unless(AllowedAttr(key, tag) || !FetchingAttr(key), Stopped(FetchingAttribute)))
  }

  lemma NameStops(tag: Tag, seen: set<string>, key: string, value: string)
    requires key != "constructor"
    ensures Fair(NameTrace(tag, seen, key, value))
    ensures ActiveAttr(key) || (FetchingAttr(key) && !AllowedAttr(key, tag)) ==> Hostile(NameTrace(tag, seen, key, value))
  {
    hide Trace.Then, CleanTrace, AllowedAttr, ActiveAttr, FetchingAttr;
    CleanFair(value);
    var a := CleanTrace(value);
    var b := Unless(key !in seen, Stopped(DuplicateAttribute));
    FairThen(a, b);
    var c := Unless(!ActiveAttr(key), Stopped(ActiveAttribute));
    FairThen(a.Then(b), c);
    FairThen(a.Then(b).Then(c), NO_FAULT);
    FairThen(a.Then(b).Then(c).Then(NO_FAULT), Unless(AllowedAttr(key, tag) || !FetchingAttr(key), Stopped(FetchingAttribute)));
  }

  /** What it is refused for by its value. */
  function ValueTrace(env: Env, tag: Tag, key: string, d: Unescaped): Trace {
    var link := key == "href" || key == "src";
    Unless(AllowedAttr(key, tag), Deferred(AttrUnrecognised))
      .Then(Unless(key != "style" || (!d.unsupported && env.safeStyle(d.value)), Stopped(UnsafeStyle)))
      .Then(Unless(key != "dir" || IsDirection(d.value), Deferred(DirUnrecognised)))
      .Then(Unless(!link || !d.unsupported || d.raw, Stopped(EntityEncodedUrl)))
  }

  lemma ValueFair(env: Env, tag: Tag, key: string, d: Unescaped)
    ensures Fair(ValueTrace(env, tag, key, d))
  {
    hide Trace.Then, Unless, AllowedAttr, IsDirection, Fair;
    var link := key == "href" || key == "src";
    UnlessFair(AllowedAttr(key, tag), Deferred(AttrUnrecognised));
    UnlessFair(key != "style" || (!d.unsupported && env.safeStyle(d.value)), Stopped(UnsafeStyle));
    UnlessFair(key != "dir" || IsDirection(d.value), Deferred(DirUnrecognised));
    UnlessFair(!link || !d.unsupported || d.raw, Stopped(EntityEncodedUrl));
    var g := Unless(AllowedAttr(key, tag), Deferred(AttrUnrecognised));
    var h := Unless(key != "style" || (!d.unsupported && env.safeStyle(d.value)), Stopped(UnsafeStyle));
    var i := Unless(key != "dir" || IsDirection(d.value), Deferred(DirUnrecognised));
    FairThen(g, h);
    FairThen(g.Then(h), i);
    FairThen(g.Then(h).Then(i), Unless(!link || !d.unsupported || d.raw, Stopped(EntityEncodedUrl)));
  }

  function LinkTrace(env: Env, key: string, d: Unescaped): Trace {
    var link := key == "href" || key == "src";
    (if link then UrlTrace(env, d.value, key == "src") else NO_FAULT).Then(Unless(!link || !d.unsupported, Deferred(UrlRawAmpersand)))
  }

  lemma AttrParts(env: Env, tag: Tag, seen: set<string>, key: string, raw: string)
    ensures var d := Entities(raw);
            AttrTrace(env, tag, seen, key, raw)
            == NameTrace(tag, seen, key, d.value).Then(ValueTrace(env, tag, key, d)).Then(LinkTrace(env, key, d))
  {
    hide Entities, UrlTrace, Trace.Then, CleanTrace, AllowedAttr, ActiveAttr, FetchingAttr, IsDirection, Unless;
    var d := Entities(raw);
    var link := key == "href" || key == "src";
    var a := NameTrace(tag, seen, key, d.value);
    var g := Unless(AllowedAttr(key, tag), Deferred(AttrUnrecognised));
    var h := Unless(key != "style" || (!d.unsupported && env.safeStyle(d.value)), Stopped(UnsafeStyle));
    var i := Unless(key != "dir" || IsDirection(d.value), Deferred(DirUnrecognised));
    var j := Unless(!link || !d.unsupported || d.raw, Stopped(EntityEncodedUrl));
    var k := if link then UrlTrace(env, d.value, key == "src") else NO_FAULT;
    var l := Unless(!link || !d.unsupported, Deferred(UrlRawAmpersand));
    ThenThen(a.Then(g).Then(h), i, j);
    ThenThen(a.Then(g), h, i.Then(j));
    ThenThen(a, g, h.Then(i.Then(j)));
    ThenThen(g.Then(h), i, j);
    ThenThen(g, h, i.Then(j));
    ThenThen(a.Then(g).Then(h).Then(i).Then(j), k, l);
  }

  lemma BadAttrStops(env: Env, tag: Tag, seen: set<string>, key: string, raw: string)
    requires BadAttr(tag, key, Entities(raw).value)
    ensures Hostile(AttrTrace(env, tag, seen, key, raw))
  {
    hide Entities, UrlTrace, BadUrl, Trace.Then, AllowedAttr, ActiveAttr, FetchingAttr, AttrTrace, NameTrace, ValueTrace, Unless, Hostile,
      Fair;
    var d := Entities(raw);
    BadNamed(tag, key);
    NameStops(tag, seen, key, d.value);
    ValueFair(env, tag, key, d);
    AttrParts(env, tag, seen, key, raw);
    var first := NameTrace(tag, seen, key, d.value).Then(ValueTrace(env, tag, key, d));
    FairThen(NameTrace(tag, seen, key, d.value), ValueTrace(env, tag, key, d));
    if key in {"href", "src"} && BadUrl(d.value) {
      BadUrlStops(env, d.value, key == "src");
      StopsThen(UrlTrace(env, d.value, key == "src"), Unless(!d.unsupported, Deferred(UrlRawAmpersand)));
      FairEither(first, LinkTrace(env, key, d));
    } else {
      StopsThen(first, LinkTrace(env, key, d));
    }
  }

  lemma UnlessFair(ok: bool, t: Trace)
    requires t in {Deferred(AttrUnrecognised), Stopped(UnsafeStyle), Deferred(DirUnrecognised), Stopped(EntityEncodedUrl)}
    ensures Fair(Unless(ok, t))
  {
  }

  lemma FairEither(a: Trace, b: Trace)
    requires Fair(a) && (Hostile(a) || Hostile(b))
    ensures Hostile(a.Then(b))
  {
  }

  lemma StopsThen(a: Trace, b: Trace)
    requires Hostile(a)
    ensures Hostile(a.Then(b))
  {
  }

  lemma CleanFair(s: string)
    ensures Fair(CleanTrace(s))
  {
  }

  /** A bad name is refused for itself, unless it is that of a link. */
  lemma BadNamed(tag: Tag, key: string)
    ensures "on" <= key || key in ACTIVE ==> ActiveAttr(key)
    ensures key in FETCHING || (key == "src" && tag != Img) ==> FetchingAttr(key) && !AllowedAttr(key, tag)
    ensures key in FETCHING || key in ACTIVE || "on" <= key || key == "href" || key == "src" ==> key != "constructor"
  {
    hide AllowedAttr;
    if key in FETCHING || key == "src" { NotAllowed(tag, key); }
    assert "on" <= key ==> key[0] == 'o';
  }

  lemma NotAllowed(tag: Tag, key: string)
    requires key in FETCHING || key == "src"
    ensures AllowedAttr(key, tag) ==> key == "src" && tag == Img
  {
    hide IsDataName;
    NoData(key, "data-");
    NoData(key, "aria-");
  }

  lemma NoData(key: string, prefix: string)
    requires (key in FETCHING || key == "src") && (prefix == "data-" || prefix == "aria-")
    ensures !IsDataName(key, prefix)
  {
    assert (key[0] != 'd' || key[1] != 'a') && key[0] != 'a';
  }

  /** Where the parser is after `n` turns of its loop, none of which has stopped it. */
  function Reached(env: Env, html: string, n: nat): (r: Option<State>)
    ensures r.Some? ==> Live(html, r.value)
  {
    if n == 0 then Some(INITIAL)
    else
      var before := Reached(env, html, n - 1);
      if before == None || before.value.pos == |html| then None
      else
        var step := NextState(env, LIMITS, html, before.value);
        if step.trace.stop == None then Some(step.next) else None
  }

  /** Among the attributes from `i` on, the scan comes to one that no note may have. */
  predicate BadAhead(env: Env, tag: Tag, s: string, i: nat, attrs: Attrs)
    requires i <= |s|
    decreases |s| - i
  {
    && LexTagEnd(s, i) == None && LexAttr(s, i).Some?
    && var a := LexAttr(s, i).value;
       || BadAttr(tag, a.key, Entities(a.value).value)
       || (AttrTrace(env, tag, attrs.Keys, a.key, a.value).stop == None
           && BadAhead(env, tag, s, a.end, attrs[a.key := Entities(a.value).value]))
  }

  /** The parser, still within its bounds, comes to the opening tag of an element that no note may
      have, or to an attribute that none may have, where the element may stand. */
  predicate HostileAhead(env: Env, html: string, st: State)
    requires Live(html, st)
  {
    && st.pos < |html| && html[st.pos] == '<' && st.count < 30_000 && |st.stack| <= 64
    && var rest := html[st.pos..];
       var n := NameEnd(rest, 1);
       && n > 1
       && (|| OpenName(rest) in FORBIDDEN
           || (StructTrace(Tags(st.stack), TagOf(OpenName(rest))).stop == None
               && BadAhead(env, TagOf(OpenName(rest)), rest, n, map[])))
  }

  lemma {:induction false} AheadStops(env: Env, tag: Tag, s: string, i: nat, attrs: Attrs)
    requires i <= |s| && BadAhead(env, tag, s, i, attrs)
    ensures Hostile(LexAttrs(env, tag, s, i, attrs).trace)
    decreases |s| - i
  {
    hide LexAttrs, LexTagEnd, LexAttr, AttrTrace, BadAttr, Entities, ClassOf;
    AttrsStep(env, tag, s, i, attrs);
    var a := LexAttr(s, i).value;
    if BadAttr(tag, a.key, Entities(a.value).value) {
      BadAttrStops(env, tag, attrs.Keys, a.key, a.value);
    } else {
      AheadStops(env, tag, s, a.end, attrs[a.key := Entities(a.value).value]);
    }
  }

  lemma TurnStops(env: Env, html: string, st: State)
    requires Live(html, st) && HostileAhead(env, html, st)
    ensures Hostile(NextState(env, LIMITS, html, st).trace)
  {
    hide LexAttrs, StructTrace, BadAhead, TagOf, Tag.Void, Tag.Forbidden, Tags;
    var rest := html[st.pos..];
    var n := NameEnd(rest, 1);
    var tag := TagOf(OpenName(rest));
    assert IsLetter(rest[1]) && LexClose(rest) == None;
    ForbiddenNamed(OpenName(rest));
    if OpenName(rest) !in FORBIDDEN { AheadStops(env, tag, rest, n, map[]); }
    var o := LexOpen(env, rest);
    assert o.tag == tag;
    assert Hostile(o.before.Then(StructTrace(Tags(st.stack), tag)).Then(o.rest.trace));
  }

  lemma {:induction false} ReachedStops(env: Env, html: string, n: nat)
    requires Reached(env, html, n).Some?
    ensures Run(env, LIMITS, html, INITIAL).trace.stop == Run(env, LIMITS, html, Reached(env, html, n).value).trace.stop
  {
    hide NextState;
    if n > 0 {
      ReachedStops(env, html, n - 1);
    }
  }

  /** A note whose scan comes to an element or attribute that no note may have is refused as hostile,
      whatever has been deferred before. */
  lemma {:induction false} HostileRefused(env: Env, stored: Stored, b: Binding, n: nat)
    requires BindingTrace(b).stop == None && EnvelopeTrace(stored).stop == None
    requires Reached(env, stored.data, n).Some? && HostileAhead(env, stored.data, Reached(env, stored.data, n).value)
    ensures Decode(env, stored, b).Refused? && ClassOf(Decode(env, stored, b).reason) == FaultClass.Hostile
  {
    hide NextState, Reached, HostileAhead, CleanTrace, BodyTrace, BindingTrace, EnvelopeTrace, WorstOf;
    var html, st := stored.data, Reached(env, stored.data, n).value;
    assert st.pos < |html| by { AheadInside(env, html, st); }
    TurnStops(env, html, st);
    ReachedStops(env, html, n);
    CleanFair(html);
    var parse := ParseOf(env, html);
    assert Hostile(parse.trace);
    var t := DecodeTrace(env, stored, b);
    assert t.stop == parse.trace.stop;
    assert Stop(t.stop.value) in t.Reached();
  }

  lemma AheadInside(env: Env, html: string, st: State)
    requires Live(html, st) && HostileAhead(env, html, st)
    ensures st.pos < |html|
  {
  }
}
