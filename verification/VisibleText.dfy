/** The text of a page that a reader can see. */
module VisibleText {
  import opened Wrappers

  /** An element with its opening and closing spelling; some elements are never closed. */
  datatype Node = Text(data: string) | Element(open: string, close: Option<string>, children: seq<Node>)

  datatype Event = StartTag(tag: string) | EndTag(tag: string) | Data(data: string)

  const IGNORED := {"script", "style", "template", "noscript"}

  // ---- what is on the page ------------------------------------------------------------

  predicate Hides(lower: string -> string, tag: string) {
    lower(tag) in IGNORED
  }

  /** A closing tag names its element. */
  predicate MatchedNode(lower: string -> string, node: Node) {
    match node
    case Text(_) => true
    case Element(open, close, children) =>
      (close.Some? ==> lower(close.value) == lower(open)) && Matched(lower, children)
  }

  predicate Matched(lower: string -> string, nodes: seq<Node>) {
    forall n :: n in nodes ==> MatchedNode(lower, n)
  }

  /** A closing tag names its element; a script, style, template or noscript is closed. */
  predicate ProperNode(lower: string -> string, node: Node) {
    match node
    case Text(_) => true
    case Element(open, close, children) =>
      && (close.Some? ==> lower(close.value) == lower(open))
      && (close.None? ==> !Hides(lower, open))
      && Proper(lower, children)
  }

  predicate Proper(lower: string -> string, nodes: seq<Node>) {
    forall n :: n in nodes ==> ProperNode(lower, n)
  }

  /** The texts with no hiding ancestor, in order. */
  function Visible(lower: string -> string, nodes: seq<Node>): seq<string> {
    if nodes == [] then [] else NodeText(lower, nodes[0]) + Visible(lower, nodes[1..])
  }

  function NodeText(lower: string -> string, node: Node): seq<string> {
    match node
    case Text(data) => [data]
    case Element(open, _, children) => if Hides(lower, open) then [] else Visible(lower, children)
  }

  /** The names that stay open behind the nodes where every opening tag counts. */
  function Open(lower: string -> string, nodes: seq<Node>): seq<string> {
    if nodes == [] then [] else OpenNode(lower, nodes[0]) + Open(lower, nodes[1..])
  }

  function OpenNode(lower: string -> string, node: Node): seq<string> {
    match node
    case Text(_) => []
    case Element(open, close, children) =>
      var names := [lower(open)] + Open(lower, children);
      if close.None? then names else PopTo(names, lower(open))
  }

  /** The element hides, and is still open behind its end: it has no closing tag, or that tag
      closes an unclosed element of its name inside it. */
  predicate StaysOpen(lower: string -> string, node: Node) {
    node.Element? && Hides(lower, node.open)
    && (node.close.None? || lower(node.open) in Open(lower, node.children))
  }

  /** Some visible part of the node stays open. */
  predicate Leaks(lower: string -> string, node: Node) {
    if node.Element? && !Hides(lower, node.open) then exists n :: n in node.children && Leaks(lower, n)
    else StaysOpen(lower, node)
  }

  /** The visible texts behind the first element that hides and stays open. */
  function Lost(lower: string -> string, nodes: seq<Node>): seq<string> {
    if nodes == [] then []
    else if Leaks(lower, nodes[0]) then LostIn(lower, nodes[0]) + Visible(lower, nodes[1..])
    else Lost(lower, nodes[1..])
  }

  function LostIn(lower: string -> string, node: Node): seq<string> {
    if node.Element? && !Hides(lower, node.open) then Lost(lower, node.children) else []
  }

  /** The visible texts before it. */
  function Kept(lower: string -> string, nodes: seq<Node>): seq<string> {
    if nodes == [] then []
    else if Leaks(lower, nodes[0]) then KeptIn(lower, nodes[0])
    else NodeText(lower, nodes[0]) + Kept(lower, nodes[1..])
  }

  function KeptIn(lower: string -> string, node: Node): seq<string> {
    if node.Element? && !Hides(lower, node.open) then Kept(lower, node.children) else []
  }

  /** What the tokenizer reports for them. */
  function Events(nodes: seq<Node>): seq<Event> {
    if nodes == [] then [] else NodeEvents(nodes[0]) + Events(nodes[1..])
  }

  function NodeEvents(node: Node): seq<Event> {
    match node
    case Text(data) => [Data(data)]
    case Element(open, close, children) =>
      [StartTag(open)] + Events(children) + if close.Some? then [EndTag(close.value)] else []
  }

  // ---- the parser, step by step -----------------------------------------------------------

  datatype State = State(stack: seq<string>, parts: seq<string>)

  /** The stack down to and without the topmost `tag`. */
  function PopTo(stack: seq<string>, tag: string): seq<string> {
    if stack == [] then []
    else if stack[|stack| - 1] == tag then stack[..|stack| - 1]
    else PopTo(stack[..|stack| - 1], tag)
  }

  function Step(lower: string -> string, s: State, e: Event): State {
    match e
    case StartTag(tag) =>
      if lower(tag) in IGNORED || s.stack != [] then s.(stack := s.stack + [lower(tag)]) else s
    case EndTag(tag) => if lower(tag) in s.stack then s.(stack := PopTo(s.stack, lower(tag))) else s
    case Data(data) => if s.stack == [] then s.(parts := s.parts + [data]) else s
  }

  function Run(lower: string -> string, s: State, events: seq<Event>): State
    decreases |events|
  {
    if events == [] then s else Run(lower, Step(lower, s, events[0]), events[1..])
  }

  class VisibleTextParser {
    const lower: string -> string
    var ignored: seq<string>
    var parts: seq<string>

    function View(): State
      reads this
    {
      State(ignored, parts)
    }

    constructor (lower: string -> string)
      ensures this.lower == lower && View() == State([], [])
    {
      this.lower, ignored, parts := lower, [], [];
    }

    method HandleStartTag(tag: string)
      modifies this
      ensures View() == Step(lower, old(View()), StartTag(tag))
    {
      var name := lower(tag);
      if name in IGNORED || ignored != [] {
        ignored := ignored + [name];
      }
    }

    method HandleEndTag(tag: string)
      modifies this
      ensures View() == Step(lower, old(View()), EndTag(tag))
    {
      var name := lower(tag);
      if ignored == [] {
        return;
      }
      if name in ignored {
        while ignored != []
          invariant parts == old(parts)
          invariant PopTo(ignored, name) == PopTo(old(ignored), name)
          decreases |ignored|
        {
          var popped := ignored[|ignored| - 1];
          ignored := ignored[..|ignored| - 1];
          if popped == name {
            return;
          }
        }
      }
    }

    method HandleData(data: string)
      modifies this
      ensures View() == Step(lower, old(View()), Data(data))
    {
      if ignored == [] {
        parts := parts + [data];
      }
    }

    method Feed(events: seq<Event>)
      modifies this
      ensures View() == Run(lower, old(View()), events)
    {
      for i := 0 to |events|
        invariant Run(lower, View(), events[i..]) == Run(lower, old(View()), events)
      {
        match events[i]
        case StartTag(tag) => HandleStartTag(tag);
        case EndTag(tag) => HandleEndTag(tag);
        case Data(data) => HandleData(data);
      }
    }
  }

  // ---- what the parser emits -----------------------------------------------------------------

  lemma {:induction false} RunAppend(lower: string -> string, s: State, a: seq<Event>, b: seq<Event>)
    ensures Run(lower, s, a + b) == Run(lower, Run(lower, s, a), b)
    decreases |a|
  {
    if a == [] {
      assert a + b == b;
    } else {
      assert (a + b)[1..] == a[1..] + b;
      RunAppend(lower, Step(lower, s, a[0]), a[1..], b);
    }
  }

  lemma {:induction false} PopAbove(stack: seq<string>, above: seq<string>, tag: string)
    requires tag !in above
    ensures PopTo(stack + [tag] + above, tag) == stack
    decreases |above|
  {
    var all := stack + [tag] + above;
    if above != [] {
      assert all[..|all| - 1] == stack + [tag] + above[..|above| - 1];
      PopAbove(stack, above[..|above| - 1], tag);
    }
  }

  /** Popping to a tag that is above `stack` leaves `stack` and what is popped above it. */
  lemma {:induction false} PopWithin(stack: seq<string>, above: seq<string>, tag: string)
    requires tag in above
    ensures PopTo(stack + above, tag) == stack + PopTo(above, tag) && PopTo(above, tag) <= above
    decreases |above|
  {
    var all := stack + above;
    var last := |above| - 1;
    assert all[..|all| - 1] == stack + above[..last];
    if above[last] != tag {
      PopWithin(stack, above[..last], tag);
    }
  }

  /** Inside a hidden element nothing is emitted, its own stack entries stay, and above them are
      the names that stay open. */
  lemma {:induction false} HiddenRun(lower: string -> string, nodes: seq<Node>, stack: seq<string>, parts: seq<string>)
    requires Matched(lower, nodes) && stack != []
    ensures Run(lower, State(stack, parts), Events(nodes)) == State(stack + Open(lower, nodes), parts)
    decreases nodes
  {
    if nodes == [] {
      assert stack + [] == stack;
    } else {
      HiddenNode(lower, nodes[0], stack, parts);
      HiddenRun(lower, nodes[1..], stack + OpenNode(lower, nodes[0]), parts);
      RunAppend(lower, State(stack, parts), NodeEvents(nodes[0]), Events(nodes[1..]));
      Associates(stack, OpenNode(lower, nodes[0]), Open(lower, nodes[1..]));
    }
  }

  lemma {:induction false} HiddenNode(lower: string -> string, node: Node, stack: seq<string>, parts: seq<string>)
    requires MatchedNode(lower, node) && stack != []
    ensures Run(lower, State(stack, parts), NodeEvents(node)) == State(stack + OpenNode(lower, node), parts)
    decreases node, 0
  {
    match node
    case Text(data) =>
      assert NodeEvents(node) == [Data(data)];
      assert stack + [] == stack;
    case Element(open, close, children) =>
      var names := [lower(open)] + Open(lower, children);
      HiddenRun(lower, children, stack + [lower(open)], parts);
      ElementRun(lower, State(stack, parts), node);
      Associates(stack, [lower(open)], Open(lower, children));
      if close.Some? {
        PopWithin(stack, names, lower(open));
      }
  }

  /** An element runs its opening tag, its children and its closing tag. */
  lemma ElementRun(lower: string -> string, s: State, node: Node)
    requires node.Element?
    ensures Run(lower, s, NodeEvents(node)) ==
      var inside := Run(lower, Step(lower, s, StartTag(node.open)), Events(node.children));
      if node.close.Some? then Step(lower, inside, EndTag(node.close.value)) else inside
  {
    var tail := if node.close.Some? then [EndTag(node.close.value)] else [];
    assert NodeEvents(node) == [StartTag(node.open)] + Events(node.children) + tail;
    assert NodeEvents(node)[1..] == Events(node.children) + tail;
    RunAppend(lower, Step(lower, s, StartTag(node.open)), Events(node.children), tail);
  }

  lemma Associates<T>(a: seq<T>, b: seq<T>, c: seq<T>)
    ensures a + b + c == a + (b + c)
  {
  }

  /** From an empty stack the visible texts are emitted in order, up to an element that hides
      and stays open, if there is one; from there on the stack is not empty. */
  lemma {:induction false} VisibleRun(lower: string -> string, nodes: seq<Node>, parts: seq<string>)
    requires Matched(lower, nodes)
    ensures var end := Run(lower, State([], parts), Events(nodes));
            && end.parts == parts + Kept(lower, nodes)
            && (if exists n :: n in nodes && Leaks(lower, n) then end.stack != [] && end.stack[0] in IGNORED
                else end.stack == [])
    decreases nodes
  {
    if nodes == [] {
      assert parts + [] == parts;
    } else {
      var node := nodes[0];
      assert nodes == [node] + nodes[1..];
      RunAppend(lower, State([], parts), NodeEvents(node), Events(nodes[1..]));
      VisibleNode(lower, node, parts);
      if Leaks(lower, node) {
        var end := Run(lower, State([], parts), NodeEvents(node));
        HiddenRun(lower, nodes[1..], end.stack, end.parts);
      } else {
        VisibleRun(lower, nodes[1..], parts + NodeText(lower, node));
        Associates(parts, NodeText(lower, node), Kept(lower, nodes[1..]));
      }
    }
  }

  lemma {:induction false} VisibleNode(lower: string -> string, node: Node, parts: seq<string>)
    requires MatchedNode(lower, node)
    ensures var end := Run(lower, State([], parts), NodeEvents(node));
            if Leaks(lower, node)
            then end.parts == parts + KeptIn(lower, node) && end.stack != [] && end.stack[0] in IGNORED
            else end == State([], parts + NodeText(lower, node))
    decreases node, 0
  {
    match node
    case Text(data) =>
      assert NodeEvents(node) == [Data(data)];
    case Element(open, close, children) =>
      ElementRun(lower, State([], parts), node);
      if lower(open) in IGNORED {
        HidingNode(lower, node, parts);
      } else {
        VisibleRun(lower, children, parts);
        var inside := Run(lower, State([], parts), Events(children));
        if close.Some? && inside.stack != [] {
          PopKeepsFirst(inside.stack, lower(open));
        }
        if !Leaks(lower, node) {
          NothingLost(lower, children);
        }
      }
  }

  lemma PopKeepsFirst(stack: seq<string>, tag: string)
    requires stack != [] && stack[0] != tag
    ensures tag in stack ==> PopTo(stack, tag) != [] && PopTo(stack, tag)[0] == stack[0]
  {
    if stack[|stack| - 1] != tag && |stack| > 1 {
      PopKeepsFirst(stack[..|stack| - 1], tag);
    }
  }

  /** Where nothing stays open all that is visible is emitted. */
  lemma {:induction false} NothingLost(lower: string -> string, nodes: seq<Node>)
    requires forall n :: n in nodes ==> !Leaks(lower, n)
    ensures Kept(lower, nodes) == Visible(lower, nodes) && Lost(lower, nodes) == []
  {
    if nodes != [] {
      NothingLost(lower, nodes[1..]);
    }
  }

  /** A visible element that hides leaves the stack empty, unless it stays open. */
  lemma HidingNode(lower: string -> string, node: Node, parts: seq<string>)
    requires MatchedNode(lower, node) && node.Element? && Hides(lower, node.open)
    ensures var end := Run(lower, State([], parts), NodeEvents(node));
            && end.parts == parts
            && (if StaysOpen(lower, node) then end.stack != [] && end.stack[0] == lower(node.open) else end.stack == [])
  {
    var t, above := lower(node.open), Open(lower, node.children);
    ElementRun(lower, State([], parts), node);
    assert [] + [t] == [t];
    HiddenRun(lower, node.children, [t], parts);
    if node.close.Some? {
      if t in above {
        PopWithin([t], above, t);
      } else {
        PopAbove([], above, t);
        assert [] + [t] + above == [t] + above;
      }
    }
  }

  /** The visible texts are the emitted ones and the lost ones. */
  lemma {:induction false} KeptAndLost(lower: string -> string, nodes: seq<Node>)
    ensures Visible(lower, nodes) == Kept(lower, nodes) + Lost(lower, nodes)
    decreases nodes
  {
    if nodes != [] {
      var node := nodes[0];
      if Leaks(lower, node) {
        if node.Element? && !Hides(lower, node.open) {
          KeptAndLost(lower, node.children);
        }
        Associates(KeptIn(lower, node), LostIn(lower, node), Visible(lower, nodes[1..]));
      } else {
        KeptAndLost(lower, nodes[1..]);
        Associates(NodeText(lower, node), Kept(lower, nodes[1..]), Lost(lower, nodes[1..]));
      }
    }
  }

  lemma NoneLost(lower: string -> string, page: seq<Node>)
    requires Lost(lower, page) == []
    ensures Kept(lower, page) == Visible(lower, page)
  {
    KeptAndLost(lower, page);
  }

  /** The parser emits exactly the text with no hiding ancestor, in order, if and only if none of
      that text stands behind an element that hides and stays open. */
  lemma EmitsVisibleIff(lower: string -> string, page: seq<Node>)
    requires Matched(lower, page)
    ensures Run(lower, State([], []), Events(page)).parts == Visible(lower, page) <==> Lost(lower, page) == []
  {
    VisibleRun(lower, page, []);
    KeptAndLost(lower, page);
    assert [] + Kept(lower, page) == Kept(lower, page);
    assert Lost(lower, page) != [] ==> |Visible(lower, page)| > |Kept(lower, page)|;
  }

  // ---- pages whose hiding elements are closed -------------------------------------------------

  predicate NoneHide(tags: seq<string>) {
    forall t :: t in tags ==> t !in IGNORED
  }

  lemma {:induction false} ProperOpen(lower: string -> string, nodes: seq<Node>)
    requires Proper(lower, nodes)
    ensures NoneHide(Open(lower, nodes)) && Matched(lower, nodes)
    decreases nodes
  {
    forall n | n in nodes ensures NoneHide(OpenNode(lower, n)) && MatchedNode(lower, n) {
      ProperOpenNode(lower, n);
    }
    AllOpen(lower, nodes);
  }

  lemma {:induction false} AllOpen(lower: string -> string, nodes: seq<Node>)
    requires forall n :: n in nodes ==> NoneHide(OpenNode(lower, n))
    ensures NoneHide(Open(lower, nodes))
  {
    if nodes != [] {
      AllOpen(lower, nodes[1..]);
    }
  }

  lemma {:induction false} ProperOpenNode(lower: string -> string, node: Node)
    requires ProperNode(lower, node)
    ensures NoneHide(OpenNode(lower, node)) && MatchedNode(lower, node)
    decreases node, 0
  {
    if node.Element? {
      var t, above := lower(node.open), Open(lower, node.children);
      ProperOpen(lower, node.children);
      if node.close.Some? {
        if t in IGNORED {
          PopAbove([], above, t);
          assert [] + [t] + above == [t] + above;
        } else {
          PopWithin([], [t] + above, t);
          assert forall u :: u in PopTo([t] + above, t) ==> u in [t] + above;
        }
      }
    }
  }

  lemma {:induction false} ProperNeverLeaks(lower: string -> string, node: Node)
    requires ProperNode(lower, node)
    ensures !Leaks(lower, node)
    decreases node
  {
    if node.Element? {
      if Hides(lower, node.open) {
        ProperOpen(lower, node.children);
      } else {
        forall n | n in node.children ensures !Leaks(lower, n) {
          ProperNeverLeaks(lower, n);
        }
      }
    }
  }

  lemma ProperLosesNothing(lower: string -> string, page: seq<Node>)
    requires Proper(lower, page)
    ensures Kept(lower, page) == Visible(lower, page) && Lost(lower, page) == []
    ensures forall n :: n in page ==> !Leaks(lower, n)
  {
    forall n | n in page ensures !Leaks(lower, n) {
      ProperNeverLeaks(lower, n);
    }
    NothingLost(lower, page);
  }

  /** When every script, style, template and noscript is closed, the parser emits exactly the
      text with no hiding ancestor, in order, and its stack is empty again. */
  lemma ProperRun(lower: string -> string, page: seq<Node>)
    requires Proper(lower, page)
    ensures Run(lower, State([], []), Events(page)) == State([], Visible(lower, page))
  {
    ProperLosesNothing(lower, page);
    ProperOpen(lower, page);
    VisibleRun(lower, page, []);
    assert [] + Kept(lower, page) == Kept(lower, page);
  }

  /** An unclosed script hides what follows it, as it does in HTML; in the forest that text is
      visible. */
  lemma UnclosedScriptHides(lower: string -> string)
    requires lower("script") == "script"
    ensures var page := [Element("script", None, []), Text("shown")];
            Run(lower, State([], []), Events(page)).parts != Visible(lower, page)
  {
    var page := [Element("script", None, []), Text("shown")];
    assert page[1..] == [Text("shown")] && page[1..][1..] == [];
    assert Events(page) == [StartTag("script"), Data("shown")];
    var s := Step(lower, State([], []), StartTag("script"));
    assert s.stack == ["script"] && Run(lower, s, [Data("shown")]) == s;
    assert Events(page)[1..] == [Data("shown")];
    assert Visible(lower, page) == ["shown"];
  }

  // ---- the normalized text ---------------------------------------------------------------------

  function Join(parts: seq<string>): string {
    if parts == [] then "" else if |parts| == 1 then parts[0] else parts[0] + " " + Join(parts[1..])
  }

  /** Where the word that starts the string ends. */
  function WordEnd(space: char -> bool, s: string): (k: nat)
    ensures k <= |s|
    ensures forall i :: 0 <= i < k ==> !space(s[i])
    ensures k < |s| ==> space(s[k])
  {
    if s == "" || space(s[0]) then 0 else 1 + WordEnd(space, s[1..])
  }

  /** The maximal runs of characters that are not spaces. */
  function Words(space: char -> bool, s: string): seq<string>
    decreases |s|
  {
    if s == "" then []
    else if space(s[0]) then Words(space, s[1..])
    else var k := WordEnd(space, s); [s[..k]] + Words(space, s[k..])
  }

  function AllWords(space: char -> bool, parts: seq<string>): seq<string> {
    if parts == [] then [] else Words(space, parts[0]) + AllWords(space, parts[1..])
  }

  lemma CutAcross(a: string, c: char, b: string, k: nat)
    requires k <= |a|
    ensures (a + [c] + b)[k..] == a[k..] + [c] + b && (a + [c] + b)[..k] == a[..k]
    ensures k == |a| ==> (a + [c] + b)[k + 1..] == b
  {
  }

  lemma WordFirst(space: char -> bool, s: string, k: nat)
    requires 0 < k <= |s| && k == WordEnd(space, s)
    ensures Words(space, s) == [s[..k]] + Words(space, s[k..])
  {
  }

  /** No word runs across a space, whichever it is. */
  lemma {:induction false} WordsAcross(space: char -> bool, a: string, c: char, b: string)
    requires space(c)
    ensures Words(space, a + [c] + b) == Words(space, a) + Words(space, b)
    decreases |a|
  {
    var s := a + [c] + b;
    if a == "" {
      CutAcross(a, c, b, 0);
    } else if space(a[0]) {
      CutAcross(a, c, b, 1);
      WordsAcross(space, a[1..], c, b);
    } else {
      var k := WordEnd(space, a);
      CutAcross(a, c, b, k);
      WordEndIs(space, s, k);
      WordFirst(space, s, k);
      WordFirst(space, a, k);
      WordsAcross(space, a[k..], c, b);
    }
  }

  lemma {:induction false} WordEndIs(space: char -> bool, s: string, k: nat)
    requires k < |s| && space(s[k]) && forall i :: 0 <= i < k ==> !space(s[i])
    ensures WordEnd(space, s) == k
    decreases k
  {
    if k > 0 {
      WordEndIs(space, s[1..], k - 1);
    }
  }

  lemma {:induction false} WordsOfJoin(space: char -> bool, parts: seq<string>)
    requires space(' ')
    ensures Words(space, Join(parts)) == AllWords(space, parts)
  {
    if |parts| == 1 {
      assert parts[1..] == [];
    } else if |parts| > 1 {
      WordsOfJoin(space, parts[1..]);
      WordsAcross(space, parts[0], ' ', Join(parts[1..]));
    }
  }

  predicate AreWords(space: char -> bool, words: seq<string>) {
    forall w :: w in words ==> w != "" && forall i :: 0 <= i < |w| ==> !space(w[i])
  }

  lemma {:induction false} WordsAreWords(space: char -> bool, s: string)
    ensures AreWords(space, Words(space, s))
    decreases |s|
  {
    if s != "" {
      if space(s[0]) {
        WordsAreWords(space, s[1..]);
      } else {
        WordsAreWords(space, s[WordEnd(space, s)..]);
      }
    }
  }

  lemma {:induction false} OneWord(space: char -> bool, w: string)
    requires w != "" && forall i :: 0 <= i < |w| ==> !space(w[i])
    ensures Words(space, w) == [w]
  {
    var k := WordEnd(space, w);
    assert w[..k] == w && w[k..] == "";
  }

  /** Joining words and splitting again gives the same words. */
  lemma {:induction false} WordsRoundTrip(space: char -> bool, words: seq<string>)
    requires space(' ') && AreWords(space, words)
    ensures Words(space, Join(words)) == words
  {
    if |words| >= 1 {
      OneWord(space, words[0]);
      if |words| > 1 {
        WordsRoundTrip(space, words[1..]);
        WordsAcross(space, words[0], ' ', Join(words[1..]));
      }
    }
  }

  /** `normalize_text`, from the tokenizer's events for the page. */
  method NormalizeText(lower: string -> string, space: char -> bool, page: seq<Node>) returns (text: string)
    requires Matched(lower, page) && space(' ')
    ensures text == Join(AllWords(space, Kept(lower, page)))
    ensures Words(space, text) == AllWords(space, Kept(lower, page))
    ensures Lost(lower, page) == [] ==> Words(space, text) == AllWords(space, Visible(lower, page))
  {
    var parser := new VisibleTextParser(lower);
    parser.Feed(Events(page));
    VisibleRun(lower, page, []);
    assert [] + Kept(lower, page) == Kept(lower, page);
    text := Join(Words(space, Join(parser.parts)));
    if Lost(lower, page) == [] {
      NoneLost(lower, page);
    }
    Normalized(space, Kept(lower, page));
  }

  lemma Normalized(space: char -> bool, parts: seq<string>)
    requires space(' ')
    ensures Words(space, Join(parts)) == AllWords(space, parts)
    ensures Words(space, Join(AllWords(space, parts))) == AllWords(space, parts)
  {
    WordsOfJoin(space, parts);
    WordsAreWords(space, Join(parts));
    WordsRoundTrip(space, Words(space, Join(parts)));
  }
}
