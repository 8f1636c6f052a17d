/** Events into a tree: `render_markdown` of apps/markdown/src/lib.rs, a stack machine
  * over the parser's events, against the nesting the events spell out. */
module RenderMarkdown {
  import opened Wrappers

  // ---- What the parser says ----------------------------------------------

  datatype Tag =
    | Paragraph | Heading(level: nat) | BlockQuote | CodeBlock | List(start: Option<nat>)
    | Item | Emphasis | Strong | OtherTag

  datatype Event =
    | StartTag(tag: Tag)
    | EndTag
    | Text(text: string) | Html(text: string) | InlineHtml(text: string)
    | InlineMath(text: string) | DisplayMath(text: string)
    | Code(text: string)
    | SoftBreak | HardBreak
    | Rule
    | TaskListMarker(done: bool)
    | FootnoteReference(text: string)

  // ---- What is rendered --------------------------------------------------

  datatype NodeTag =
    | PTag | HTag(level: nat) | QuoteTag | CodeBlockTag | UlTag | OlTag | ItemTag | EmTag | StrongTag | OtherNode

  datatype Node =
    | Container(tag: NodeTag, children: Forest)
    | TextNode(text: string)
    | CodeNode(text: string)
    | BreakNode
    | RuleNode

  datatype Forest = Bare | Grown(front: Forest, last: Node)

  function MarkdownTag(tag: Tag): NodeTag {
    match tag
    case Paragraph => PTag
    case Heading(level) => HTag(level)
    case BlockQuote => QuoteTag
    case CodeBlock => CodeBlockTag
    case List(Some(_)) => OlTag
    case List(None) => UlTag
    case Item => ItemTag
    case Emphasis => EmTag
    case Strong => StrongTag
    case OtherTag => OtherNode
  }

  /** The leaf an event becomes, where it opens and closes nothing. */
  function Leaf(e: Event): (n: Node)
    requires !e.StartTag? && !e.EndTag?
    ensures !n.Container?
  {
    match e
    case Text(t) => TextNode(t)
    case Html(t) => TextNode(t)
    case InlineHtml(t) => TextNode(t)
    case InlineMath(t) => TextNode(t)
    case DisplayMath(t) => TextNode(t)
    case Code(t) => CodeNode(t)
    case SoftBreak => BreakNode
    case HardBreak => BreakNode
    case Rule => RuleNode
    case TaskListMarker(done) => TextNode(if done then "\U{2611} " else "\U{2610} ")
    case FootnoteReference(t) => TextNode("[" + t + "]")
  }

  // ---- The tree, written out again ---------------------------------------

  datatype Token = Open(tag: NodeTag) | Close | Single(node: Node)

  /** A string of tokens, growing at the end. */
  datatype Tokens = NoTokens | Snoc(front: Tokens, last: Token)

  function Mapped(e: Event): (t: Token) {
    if e.StartTag? then Open(MarkdownTag(e.tag)) else if e.EndTag? then Close else Single(Leaf(e))
  }

  function MapAll(events: seq<Event>): (ts: Tokens) {
    if events == [] then NoTokens
    else Snoc(MapAll(events[..|events| - 1]), Mapped(events[|events| - 1]))
  }

  /** `before`, then the forest's own nesting, in order. */
  function Flatten(before: Tokens, f: Forest): (ts: Tokens)
    decreases f, 0, before
  {
    match f
    case Bare => before
    case Grown(front, last) => FlattenNode(Flatten(before, front), last)
  }

  function FlattenNode(before: Tokens, n: Node): (ts: Tokens)
    decreases n, 1, before
  {
    match n
    case Container(tag, children) => Snoc(Flatten(Snoc(before, Open(tag)), children), Close)
    case _ => Snoc(before, Single(n))
  }

  /** How deep the nesting is after `ts`, if it never closes what it did not open. */
  function Depth(ts: Tokens): (d: Option<nat>) {
    match ts
    case NoTokens => Some(0)
    case Snoc(front, t) =>
      var d := Depth(front);
      if d.None? then None
      else if t.Open? then Some(d.value + 1)
      else if t.Close? then (if d.value == 0 then None else Some(d.value - 1))
      else d
  }

  ghost predicate WellNested(events: seq<Event>) {
    Depth(MapAll(events)) == Some(0)
  }

  // ---- What is read off the events and off the tree ----------------------

  /** What an event says, where it says anything. */
  function Said(e: Event): string {
    match e
    case TaskListMarker(done) => if done then "\U{2611} " else "\U{2610} "
    case FootnoteReference(text) => "[" + text + "]"
    case StartTag(_) => ""
    case EndTag => ""
    case SoftBreak => ""
    case HardBreak => ""
    case Rule => ""
    case _ => e.text
  }

  function AllSaid(events: seq<Event>): string {
    if events == [] then "" else AllSaid(events[..|events| - 1]) + Said(events[|events| - 1])
  }

  function TextIn(f: Forest): string
    decreases f, 0
  {
    match f
    case Bare => ""
    case Grown(front, last) => TextIn(front) + TextOf(last)
  }

  function TextOf(n: Node): string
    decreases n, 1
  {
    match n
    case Container(_, children) => TextIn(children)
    case TextNode(text) => text
    case CodeNode(text) => text
    case BreakNode => ""
    case RuleNode => ""
  }

  /** The leaves of a forest, in order. */
  function Leaves(f: Forest): seq<Node>
    decreases f, 0
  {
    match f
    case Bare => []
    case Grown(front, last) => Leaves(front) + LeavesOf(last)
  }

  function LeavesOf(n: Node): seq<Node>
    decreases n, 1
  {
    if n.Container? then Leaves(n.children) else [n]
  }

  /** The tags of its containers, each before those within it. */
  function Tags(f: Forest): seq<NodeTag>
    decreases f, 0
  {
    match f
    case Bare => []
    case Grown(front, last) => Tags(front) + TagsOf(last)
  }

  function TagsOf(n: Node): seq<NodeTag>
    decreases n, 1
  {
    if n.Container? then [n.tag] + Tags(n.children) else []
  }

  /** The events that open or close nothing, and the tags of those that open. */
  function Plain(events: seq<Event>): seq<Event> {
    if events == [] then []
    else
      var e := events[|events| - 1];
      Plain(events[..|events| - 1]) + if e.StartTag? || e.EndTag? then [] else [e]
  }

  function Opened(events: seq<Event>): seq<Tag> {
    if events == [] then []
    else
      var e := events[|events| - 1];
      Opened(events[..|events| - 1]) + if e.StartTag? then [e.tag] else []
  }

  /** A leaf shows an event: code as code, a break as a break, a rule as a rule, and
    * whatever else says something as its text. */
  predicate Shows(n: Node, e: Event) {
    match n
    case Container(_, _) => false
    case CodeNode(text) => e == Code(text)
    case BreakNode => e == SoftBreak || e == HardBreak
    case RuleNode => e == Rule
    case TextNode(text) =>
      !e.StartTag? && !e.EndTag? && !e.Code? && !e.SoftBreak? && !e.HardBreak? && !e.Rule? && text == Said(e)
  }

  /** A container is the one its opening tag calls for: a list with a start is ordered. */
  predicate CalledFor(t: NodeTag, tag: Tag) {
    match t
    case PTag => tag == Paragraph
    case HTag(level) => tag == Heading(level)
    case QuoteTag => tag == BlockQuote
    case CodeBlockTag => tag == CodeBlock
    case OlTag => tag.List? && tag.start.Some?
    case UlTag => tag.List? && tag.start.None?
    case ItemTag => tag == Item
    case EmTag => tag == Emphasis
    case StrongTag => tag == Strong
    case OtherNode => tag == OtherTag
  }

  ghost predicate AllShow(leaves: seq<Node>, events: seq<Event>) {
    |leaves| == |events| && forall k | 0 <= k < |leaves| :: Shows(leaves[k], events[k])
  }

  ghost predicate AllCalledFor(tags: seq<NodeTag>, starts: seq<Tag>) {
    |tags| == |starts| && forall k | 0 <= k < |tags| :: CalledFor(tags[k], starts[k])
  }

  /** The forest says what the events say; each event is shown by one leaf or opens one
    * container, in order; and there is nothing else in it. */
  ghost predicate Renders(f: Forest, events: seq<Event>) {
    TextIn(f) == AllSaid(events) && AllShow(Leaves(f), Plain(events)) && AllCalledFor(Tags(f), Opened(events))
  }

  // ---- The same, read off the tokens --------------------------------------

  function TokenText(ts: Tokens): string {
    match ts
    case NoTokens => ""
    case Snoc(front, last) => TokenText(front) + if last.Single? then TextOf(last.node) else ""
  }

  function TokenLeaves(ts: Tokens): seq<Node> {
    match ts
    case NoTokens => []
    case Snoc(front, last) => TokenLeaves(front) + if last.Single? then [last.node] else []
  }

  function TokenTags(ts: Tokens): seq<NodeTag> {
    match ts
    case NoTokens => []
    case Snoc(front, last) => TokenTags(front) + if last.Open? then [last.tag] else []
  }

  lemma {:induction false} FlattenText(before: Tokens, f: Forest)
    ensures TokenText(Flatten(before, f)) == TokenText(before) + TextIn(f)
    decreases f, 0
  {
    match f
    case Bare =>
    case Grown(front, last) =>
      FlattenText(before, front);
      FlattenNodeText(Flatten(before, front), last);
  }

  lemma {:induction false} FlattenNodeText(before: Tokens, n: Node)
    ensures TokenText(FlattenNode(before, n)) == TokenText(before) + TextOf(n)
    decreases n, 1
  {
    match n
    case Container(tag, children) => FlattenText(Snoc(before, Open(tag)), children);
    case _ =>
  }

  lemma {:induction false} FlattenLeaves(before: Tokens, f: Forest)
    ensures TokenLeaves(Flatten(before, f)) == TokenLeaves(before) + Leaves(f)
    decreases f, 0
  {
    match f
    case Bare =>
    case Grown(front, last) =>
      FlattenLeaves(before, front);
      FlattenNodeLeaves(Flatten(before, front), last);
  }

  lemma {:induction false} FlattenNodeLeaves(before: Tokens, n: Node)
    ensures TokenLeaves(FlattenNode(before, n)) == TokenLeaves(before) + LeavesOf(n)
    decreases n, 1
  {
    match n
    case Container(tag, children) => FlattenLeaves(Snoc(before, Open(tag)), children);
    case _ =>
  }

  lemma {:induction false} FlattenTags(before: Tokens, f: Forest)
    ensures TokenTags(Flatten(before, f)) == TokenTags(before) + Tags(f)
    decreases f, 0
  {
    match f
    case Bare =>
    case Grown(front, last) =>
      FlattenTags(before, front);
      FlattenNodeTags(Flatten(before, front), last);
  }

  lemma {:induction false} FlattenNodeTags(before: Tokens, n: Node)
    ensures TokenTags(FlattenNode(before, n)) == TokenTags(before) + TagsOf(n)
    decreases n, 1
  {
    match n
    case Container(tag, children) =>
      FlattenTags(Snoc(before, Open(tag)), children);
      assert TokenTags(before) + [tag] + Tags(children) == TokenTags(before) + ([tag] + Tags(children));
    case _ =>
  }

  lemma LeafShows(e: Event)
    requires !e.StartTag? && !e.EndTag?
    ensures Shows(Leaf(e), e) && TextOf(Leaf(e)) == Said(e)
  {
  }

  lemma TagCalledFor(tag: Tag)
    ensures CalledFor(MarkdownTag(tag), tag)
  {
  }

  lemma {:induction false} MapTells(events: seq<Event>)
    ensures TokenText(MapAll(events)) == AllSaid(events)
    ensures AllShow(TokenLeaves(MapAll(events)), Plain(events))
    ensures AllCalledFor(TokenTags(MapAll(events)), Opened(events))
  {
    if events != [] {
      var e := events[|events| - 1];
      MapTells(events[..|events| - 1]);
      if e.StartTag? { TagCalledFor(e.tag); } else if !e.EndTag? { LeafShows(e); }
    }
  }

  /** A forest whose tokens are the events' shows them. */
  lemma ShowsAll(f: Forest, events: seq<Event>)
    requires Flatten(NoTokens, f) == MapAll(events)
    ensures Renders(f, events)
  {
    MapTells(events);
    FlattenText(NoTokens, f);
    FlattenLeaves(NoTokens, f);
    FlattenTags(NoTokens, f);
  }

  // ---- The stack machine -------------------------------------------------

  type Level = (NodeTag, Forest)

  /** What is written by the time a stack is this deep: each level's children so far,
    * with the tag of the level above opened between them. */
  function Pending(stack: seq<Level>): (ts: Tokens)
    requires stack != []
  {
    if |stack| == 1 then Flatten(NoTokens, stack[0].1)
    else
      var top := stack[|stack| - 1];
      Flatten(Snoc(Pending(stack[..|stack| - 1]), Open(top.0)), top.1)
  }

  lemma PopPending(stack: seq<Level>, top: Level)
    requires stack != []
    ensures var n := |stack| - 1;
            var next := stack[..n] + [(stack[n].0, Grown(stack[n].1, Container(top.0, top.1)))];
            Pending(next) == Snoc(Pending(stack + [top]), Close)
  {
    var n := |stack| - 1;
    var next := stack[..n] + [(stack[n].0, Grown(stack[n].1, Container(top.0, top.1)))];
    assert next[..n] == stack[..n];
    assert (stack + [top])[..|stack|] == stack;
    var base := if n == 0 then NoTokens else Snoc(Pending(stack[..n]), Open(stack[n].0));
    assert Pending(stack) == Flatten(base, stack[n].1);
    assert Pending(next) == Flatten(base, Grown(stack[n].1, Container(top.0, top.1)));
  }

  lemma LeafPending(stack: seq<Level>, leaf: Node)
    requires stack != [] && !leaf.Container?
    ensures var n := |stack| - 1;
            var next := stack[..n] + [(stack[n].0, Grown(stack[n].1, leaf))];
            Pending(next) == Snoc(Pending(stack), Single(leaf))
  {
    var n := |stack| - 1;
    var next := stack[..n] + [(stack[n].0, Grown(stack[n].1, leaf))];
    assert next[..n] == stack[..n] && |next| == |stack|;
    var base := if n == 0 then NoTokens else Snoc(Pending(stack[..n]), Open(stack[n].0));
    assert Pending(stack) == Flatten(base, stack[n].1);
    assert Pending(next) == Flatten(base, next[n].1);
    assert Flatten(base, Grown(stack[n].1, leaf)) == FlattenNode(Flatten(base, stack[n].1), leaf);
    assert FlattenNode(Pending(stack), leaf) == Snoc(Pending(stack), Single(leaf));
  }

  lemma OpenPending(stack: seq<Level>, tag: NodeTag)
    requires stack != []
    ensures Pending(stack + [(tag, Bare)]) == Snoc(Pending(stack), Open(tag))
  {
    assert (stack + [(tag, Bare)])[..|stack|] == stack;
  }

  /** The container on top, if there is one, goes to the level below, if there is one. */
  method PopLevel(stack: seq<Level>) returns (rest: seq<Level>)
    ensures |stack| <= 1 ==> rest == []
    ensures |stack| > 1 ==> |rest| == |stack| - 1 && Pending(rest) == Snoc(Pending(stack), Close)
  {
    rest := stack;
    if rest != [] {
      var top := rest[|rest| - 1];
      rest := rest[..|rest| - 1];
      if rest != [] {
        var parent := rest[|rest| - 1];
        PopPending(rest, top);
        assert rest + [top] == stack;
        rest := rest[..|rest| - 1] + [(parent.0, Grown(parent.1, Container(top.0, top.1)))];
      }
    }
  }

  /** `None` is the panic of `unwrap` on an empty stack. */
  method Render(events: seq<Event>) returns (nodes: Option<Forest>)
    ensures WellNested(events) ==> nodes.Some?
    ensures WellNested(events) ==> Renders(nodes.value, events)
    ensures WellNested(events) <==> nodes.Some? && Flatten(NoTokens, nodes.value) == MapAll(events)
  {
    var stack: seq<Level> := [(OtherNode, Bare)];
    ghost var sound := true;
    for i := 0 to |events|
      invariant sound ==> stack != [] && Pending(stack) == MapAll(events[..i])
      invariant sound ==> Depth(MapAll(events[..i])) == Some(|stack| - 1)
      invariant !sound ==> Depth(MapAll(events[..i])) == None
    {
      var event := events[i];
      assert events[..i + 1][..i] == events[..i];
      if event.StartTag? {
        if sound { OpenPending(stack, MarkdownTag(event.tag)); }
        stack := stack + [(MarkdownTag(event.tag), Bare)];
      } else if event.EndTag? {
        stack := PopLevel(stack);
        if sound { sound := stack != []; }
      } else {
        if stack == [] {
          NeverAgain(events, i);
          FlattenNests(events);
          return None;
        }
        var top := stack[|stack| - 1];
        LeafPending(stack, Leaf(event));
        stack := stack[..|stack| - 1] + [(top.0, Grown(top.1, Leaf(event)))];
      }
    }
    assert events[..|events|] == events;
    FlattenNests(events);
    if stack == [] {
      return None;
    }
    nodes := Some(stack[|stack| - 1].1);
    if Flatten(NoTokens, nodes.value) == MapAll(events) { ShowsAll(nodes.value, events); }
  }

  /** Once something was closed that was never opened, no more events can mend it. */
  lemma {:induction false} NeverAgain(events: seq<Event>, i: nat)
    requires i <= |events| && Depth(MapAll(events[..i])) == None
    ensures Depth(MapAll(events)) == None
    decreases |events| - i
  {
    if i < |events| {
      assert events[..i + 1][..i] == events[..i];
      NeverAgain(events, i + 1);
    } else {
      assert events[..i] == events;
    }
  }

  /** A forest's own tokens leave the depth where it was. */
  lemma {:induction false} FlattenDepth(before: Tokens, f: Forest)
    requires Depth(before).Some?
    ensures Depth(Flatten(before, f)) == Depth(before)
    decreases f, 0
  {
    match f
    case Bare =>
    case Grown(front, last) =>
      FlattenDepth(before, front);
      FlattenNodeDepth(Flatten(before, front), last);
  }

  lemma {:induction false} FlattenNodeDepth(before: Tokens, n: Node)
    requires Depth(before).Some?
    ensures Depth(FlattenNode(before, n)) == Depth(before)
    decreases n, 1
  {
    match n
    case Container(tag, children) => FlattenDepth(Snoc(before, Open(tag)), children);
    case _ =>
  }

  lemma FlattenNests(events: seq<Event>)
    ensures forall f :: Flatten(NoTokens, f) == MapAll(events) ==> WellNested(events)
  {
    forall f | Flatten(NoTokens, f) == MapAll(events) ensures WellNested(events) {
      FlattenDepth(NoTokens, f);
    }
  }

  ghost predicate EndsOpen(ts: Tokens) {
    ts.NoTokens? || ts.last.Open?
  }

  /** Tokens are the nesting of at most one forest. */
  lemma {:induction false} FlattenInjective(b: Tokens, f: Forest, c: Tokens, g: Forest)
    requires EndsOpen(b) && EndsOpen(c) && Flatten(b, f) == Flatten(c, g)
    ensures b == c && f == g
    decreases f
  {
    if f.Grown? && g.Grown? {
      if f.last.Container? && g.last.Container? {
        FlattenInjective(Snoc(Flatten(b, f.front), Open(f.last.tag)), f.last.children,
                         Snoc(Flatten(c, g.front), Open(g.last.tag)), g.last.children);
      }
      FlattenInjective(b, f.front, c, g.front);
    }
  }

  /** Rendering is recursive descent: events that spell out a forest render to it. */
  method RenderForest(f: Forest, events: seq<Event>) returns (nodes: Option<Forest>)
    requires MapAll(events) == Flatten(NoTokens, f)
    ensures nodes == Some(f)
  {
    nodes := Render(events);
    FlattenDepth(NoTokens, f);
    FlattenInjective(NoTokens, nodes.value, NoTokens, f);
  }
}
