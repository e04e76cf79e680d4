/**
  XML trees as event streams and back (src/basilisp/data_xml.py:353-373, 451-556).

  Both directions keep an explicit stack, so that deep trees do not need deep
  recursion; each is proved against a recursive definition.
*/
module XmlEvents {
  import opened Prelude

  type Attrs = map<string, string>

  /**
    An item of an element's content: an element, text, CDATA, a comment, a
    scalar (by the text it becomes), a nested sequence, or a map that is not an
    element. `None` and `Absent` mean that the key is absent.
  */
  datatype Node =
    | Element(tag: string, attrs: Option<Attrs>, content: Content)
    | Text(text: string)
    | CData(text: string)
    | Comment(text: string)
    | Scalar(text: string)
    | Sequence(items: seq<Node>)
    | NotAnElement

  datatype Content = Absent | Present(nodes: seq<Node>)

  datatype Event =
    | StartElement(tag: string, attrs: Attrs)
    | EmptyElement(tag: string, attrs: Attrs)
    | EndElement(tag: string)
    | Chars(text: string)
    | CDataEvent(text: string)
    | CommentEvent(text: string)

  function AttrsOf(n: Node): Attrs
    requires n.Element?
  {
    if n.attrs.Some? then n.attrs.value else map[]
  }

  function ContentOf(n: Node): seq<Node>
    requires n.Element?
  {
    if n.content.Present? then n.content.nodes else []
  }

  // ------------------------------------------------------------------
  // Flattening

  /** The events of a generator, and whether it ended by raising. */
  datatype Stream = Stream(events: seq<Event>, failed: bool)

  function Then(a: Stream, b: Stream): Stream {
    if a.failed then a else Stream(a.events + b.events, b.failed)
  }

  const DONE := Stream([], false)

  function One(e: Event): Stream { Stream([e], false) }

  /** Depth-first flattening, by recursion. */
  function Flat(n: Node): Stream
    decreases n
  {
    match n
    case Text(s) => One(Chars(s))
    case Scalar(s) => One(Chars(s))
    case CData(s) => One(CDataEvent(s))
    case Comment(s) => One(CommentEvent(s))
    case NotAnElement => Stream([], true)
    case Sequence(items) => FlatAll(items)
    case Element(tag, _, _) =>
      if n.content.Absent? || n.content.nodes == [] then One(EmptyElement(tag, AttrsOf(n)))
      else Then(One(StartElement(tag, AttrsOf(n))), Then(FlatAll(n.content.nodes), One(EndElement(tag))))
  }

  function FlatAll(ns: seq<Node>): Stream
    decreases ns
  {
    if ns == [] then DONE else Then(Flat(ns[0]), FlatAll(ns[1..]))
  }

  /** An entry of the explicit stack: an iterator, by what it has left, or an event to yield. */
  datatype Frame = Items(left: seq<Node>) | Yield(event: Event)

  /** What a stack, top last, still has to yield. */
  function Pending(stack: seq<Frame>): Stream {
    if stack == [] then DONE
    else
      var top := stack[|stack| - 1];
      Then(if top.Yield? then One(top.event) else FlatAll(top.left), Pending(stack[..|stack| - 1]))
  }

  function Size(n: Node): nat
    decreases n
  {
    match n
    case Sequence(items) => 2 + SizeAll(items)
    case Element(_, _, _) => if n.content.Present? then 3 + SizeAll(n.content.nodes) else 3
    case _ => 1
  }

  function SizeAll(ns: seq<Node>): nat
    decreases ns
  {
    if ns == [] then 0 else Size(ns[0]) + SizeAll(ns[1..])
  }

  function Weight(stack: seq<Frame>): nat {
    if stack == [] then 0
    else
      var top := stack[|stack| - 1];
      1 + (if top.Items? then SizeAll(top.left) else 0) + Weight(stack[..|stack| - 1])
  }

  lemma ThenAssociates(a: Stream, b: Stream, c: Stream)
    ensures Then(Then(a, b), c) == Then(a, Then(b, c))
    ensures Then(DONE, a) == a && Then(a, DONE) == a
  {
  }

  /** What is yielded so far, then what the stack will yield. */
  function Whole(events: seq<Event>, stack: seq<Frame>): Stream { Then(Stream(events, false), Pending(stack)) }

  lemma YieldNow(events: seq<Event>, e: Event, stack: seq<Frame>)
    ensures Whole(events + [e], stack) == Then(Stream(events, false), Then(One(e), Pending(stack)))
  {
    ThenAssociates(Stream(events, false), One(e), Pending(stack));
  }

  lemma PushItems(items: seq<Node>, stack: seq<Frame>)
    ensures Pending(stack + [Items(items)]) == Then(FlatAll(items), Pending(stack))
    ensures Weight(stack + [Items(items)]) == 1 + SizeAll(items) + Weight(stack)
  {
  }

  /** An element with content: its start now, its content and its end later. */
  lemma PushElement(value: Node, stack: seq<Frame>)
    requires value.Element? && ContentOf(value) != []
    ensures var frames := stack + [Yield(EndElement(value.tag))] + [Items(ContentOf(value))];
      && Then(One(StartElement(value.tag, AttrsOf(value))), Pending(frames)) == Then(Flat(value), Pending(stack))
      && Weight(frames) == Size(value) - 1 + Weight(stack)
  {
    var (start, end) := (One(StartElement(value.tag, AttrsOf(value))), One(EndElement(value.tag)));
    var (contents, later) := (FlatAll(ContentOf(value)), Pending(stack));
    PushItems(ContentOf(value), stack + [Yield(EndElement(value.tag))]);
    PushYield(EndElement(value.tag), stack);
    ElementFlat(value);
    hide FlatAll, Flat, Pending, Weight, Size, SizeAll, Then, One;
    ThenAssociates(start, Then(contents, end), later);
    ThenAssociates(contents, end, later);
  }

  lemma PushYield(e: Event, stack: seq<Frame>)
    ensures Pending(stack + [Yield(e)]) == Then(One(e), Pending(stack))
    ensures Weight(stack + [Yield(e)]) == 1 + Weight(stack)
  {
  }

  lemma ElementFlat(value: Node)
    requires value.Element? && ContentOf(value) != []
    ensures Flat(value)
         == Then(One(StartElement(value.tag, AttrsOf(value))),
                 Then(FlatAll(ContentOf(value)), One(EndElement(value.tag))))
    ensures Size(value) == 3 + SizeAll(ContentOf(value))
  {
  }

  /** One value taken from an iterator. */
  method Visit(value: Node, events0: seq<Event>, stack0: seq<Frame>)
      returns (events: seq<Event>, stack: seq<Frame>, failed: bool)
    ensures failed ==> Stream(events, true) == Then(Stream(events0, false), Then(Flat(value), Pending(stack0)))
    ensures !failed ==> Whole(events, stack) == Then(Stream(events0, false), Then(Flat(value), Pending(stack0)))
    ensures !failed ==> Weight(stack) < Weight(stack0) + Size(value)
  {
    hide Pending, FlatAll, Then, Weight, SizeAll;
    events, stack, failed := events0, stack0, false;
    match value {
      case CData(s) => YieldNow(events0, CDataEvent(s), stack0); events := events + [CDataEvent(s)];
      case Comment(s) => YieldNow(events0, CommentEvent(s), stack0); events := events + [CommentEvent(s)];
      case Text(s) => YieldNow(events0, Chars(s), stack0); events := events + [Chars(s)];
      case Scalar(s) => YieldNow(events0, Chars(s), stack0); events := events + [Chars(s)];
      case NotAnElement =>
        FailNow(events0, Pending(stack0));
        failed := true;
      case Sequence(items) =>
        PushItems(items, stack0);
        stack := stack + [Items(items)];
      case Element(tag, attrs, content) =>
        if ContentOf(value) == [] {
          YieldNow(events0, EmptyElement(tag, AttrsOf(value)), stack0);
          events := events + [EmptyElement(tag, AttrsOf(value))];
        } else {
          PushElement(value, stack0);
          stack := stack + [Yield(EndElement(tag))] + [Items(ContentOf(value))];
          YieldNow(events0, StartElement(tag, AttrsOf(value)), stack);
          events := events + [StartElement(tag, AttrsOf(value))];
        }
    }
  }

  lemma FailNow(events: seq<Event>, later: Stream)
    ensures Then(Stream(events, false), Then(Stream([], true), later)) == Stream(events, true)
  {
  }

  /** An iterator with a value left: the value, then the rest of the iterator. */
  lemma TakeOne(left: seq<Node>, below: seq<Frame>)
    requires left != []
    ensures Pending(below + [Items(left)]) == Then(Flat(left[0]), Pending(below + [Items(left[1..])]))
    ensures Weight(below + [Items(left)]) == Size(left[0]) + Weight(below + [Items(left[1..])])
  {
    PushItems(left, below);
    PushItems(left[1..], below);
    ThenAssociates(Flat(left[0]), FlatAll(left[1..]), Pending(below));
  }

  /** `flatten_elements`. */
  method FlattenElements(elements: seq<Node>) returns (events: seq<Event>, failed: bool)
    ensures Stream(events, failed) == FlatAll(elements)
  {
    events, failed := [], false;
    var stack := [Items(elements)];
    PushItems(elements, []);
    ThenAssociates(FlatAll(elements), DONE, DONE);
    hide Flat, FlatAll, Size, SizeAll;
    while stack != []
      invariant Whole(events, stack) == FlatAll(elements)
      decreases Weight(stack)
    {
      var top := stack[|stack| - 1];
      var below := stack[..|stack| - 1];
      assert stack == below + [top];
      stack := below;
      match top {
        case Yield(event) =>
          YieldNow(events, event, below);
          events := events + [event];
        case Items(left) =>
          if left == [] {
            NothingLeft();
          } else {
            TakeOne(left, below);
            stack := below + [Items(left[1..])];
            events, stack, failed := Visit(left[0], events, stack);
            if failed {
              return;
            }
          }
      }
    }
  }

  lemma NothingLeft()
    ensures FlatAll([]) == DONE
  {
  }

  // ------------------------------------------------------------------
  // Rebuilding

  datatype Failure = UnmatchedEnd | NeverClosed

  /** `element`: a given attribute map is kept even when empty; empty content is dropped. */
  function MakeElement(tag: string, attrs: Attrs, content: seq<Node>): Node {
    Element(tag, Some(attrs), if content == [] then Absent else Present(content))
  }

  /** `event_node`. */
  function LeafNode(e: Event): Node
    requires e.Chars? || e.CDataEvent? || e.CommentEvent?
  {
    match e
    case Chars(s) => Text(s)
    case CDataEvent(s) => CData(s)
    case CommentEvent(s) => Comment(s)
  }

  /** An open element and the content it has so far. */
  datatype Open = Open(tag: string, attrs: Attrs, content: seq<Node>)

  /** Hands a finished node to the innermost open element. */
  function Add(stack: seq<Open>, nodes: seq<Node>): seq<Open>
    requires stack != []
  {
    var top := stack[|stack| - 1];
    stack[..|stack| - 1] + [top.(content := top.content + nodes)]
  }

  /** What the builder does with a stack and the events to come: the tree, if any, and the events it has not touched. */
  function Built(stack: seq<Open>, events: seq<Event>): Result<(Option<Node>, seq<Event>), Failure>
    decreases |events|, 0
  {
    if events == [] then (if stack == [] then Ok((None, [])) else Err(NeverClosed))
    else
      var (e, rest) := (events[0], events[1..]);
      match e
      case StartElement(tag, attrs) => Built(stack + [Open(tag, attrs, [])], rest)
      case EndElement(_) =>
        if stack == [] then Err(UnmatchedEnd)
        else
          var top := stack[|stack| - 1];
          Give(stack[..|stack| - 1], MakeElement(top.tag, top.attrs, top.content), rest)
      case EmptyElement(tag, attrs) => Give(stack, MakeElement(tag, attrs, []), rest)
      case _ => Give(stack, LeafNode(e), rest)
  }

  function Give(stack: seq<Open>, node: Node, rest: seq<Event>): Result<(Option<Node>, seq<Event>), Failure>
    decreases |rest|, 1
  {
    if stack == [] then Ok((Some(node), rest)) else Built(Add(stack, [node]), rest)
  }

  /** `event_tree`; `taken` counts the events consumed. */
  method EventTree(events: seq<Event>) returns (tree: Result<Option<Node>, Failure>, taken: nat)
    ensures taken <= |events|
    ensures match Built([], events)
            case Ok((node, rest)) => tree == Ok(node) && rest == events[taken..]
            case Err(e) => tree == Err(e)
  {
    var stack: seq<Open> := [];
    taken := 0;
    while taken < |events|
      invariant taken <= |events| && Built(stack, events[taken..]) == Built([], events)
    {
      var e := events[taken];
      assert events[taken..][0] == e && events[taken..][1..] == events[taken + 1..];
      taken := taken + 1;
      if e.StartElement? {
        stack := stack + [Open(e.tag, e.attrs, [])];
      } else {
        var node;
        if e.EmptyElement? {
          node := MakeElement(e.tag, e.attrs, []);
        } else if e.EndElement? {
          if stack == [] {
            return Err(UnmatchedEnd), taken;
          }
          var top := stack[|stack| - 1];
          stack := stack[..|stack| - 1];
          node := MakeElement(top.tag, top.attrs, top.content);
        } else {
          node := LeafNode(e);
        }
        if stack == [] {
          return Ok(Some(node)), taken;
        }
        stack := Add(stack, [node]);
      }
    }
    tree := if stack != [] then Err(NeverClosed) else Ok(None);
  }

  // ------------------------------------------------------------------
  // There and back

  /** What an item becomes: nested sequences are inlined, scalars become text, elements get an attribute map. */
  function Normal(n: Node): seq<Node>
    decreases n
  {
    match n
    case Scalar(s) => [Text(s)]
    case Sequence(items) => NormalAll(items)
    case NotAnElement => []
    case Element(tag, _, _) =>
      [MakeElement(tag, AttrsOf(n), if n.content.Present? then NormalAll(n.content.nodes) else [])]
    case _ => [n]
  }

  function NormalAll(ns: seq<Node>): seq<Node>
    decreases ns
  {
    if ns == [] then [] else Normal(ns[0]) + NormalAll(ns[1..])
  }

  /** Every map in the tree is an element. */
  predicate Proper(n: Node)
    decreases n
  {
    match n
    case NotAnElement => false
    case Sequence(items) => forall i :: 0 <= i < |items| ==> Proper(items[i])
    case Element(_, _, Present(nodes)) => forall i :: 0 <= i < |nodes| ==> Proper(nodes[i])
    case _ => true
  }

  /**
    The trees that come back unchanged: every element has an attribute map and
    no empty content, and there is no scalar or nested sequence.
  */
  predicate Canonical(n: Node)
    decreases n
  {
    match n
    case Element(_, attrs, content) =>
      attrs.Some? &&
      (content.Absent? || (content.nodes != [] && forall i :: 0 <= i < |content.nodes| ==> Canonical(content.nodes[i])))
    case Text(_) => true
    case CData(_) => true
    case Comment(_) => true
    case _ => false
  }

  /** The flattener raises exactly when it meets a map that is not an element. */
  lemma {:induction false} FlatFails(n: Node)
    ensures Flat(n).failed <==> !Proper(n)
    decreases n
  {
    match n
    case Sequence(items) => FlatAllFails(items);
    case Element(_, _, Present(nodes)) => FlatAllFails(nodes);
    case _ =>
  }

  lemma {:induction false} FlatAllFails(ns: seq<Node>)
    ensures FlatAll(ns).failed <==> exists i :: 0 <= i < |ns| && !Proper(ns[i])
    decreases ns
  {
    if ns != [] {
      FlatFails(ns[0]);
      FlatAllFails(ns[1..]);
      assert forall i :: 1 <= i < |ns| ==> ns[i] == ns[1..][i - 1];
      if i :| 0 <= i < |ns| && !Proper(ns[i]) {
        if i > 0 {
          assert !Proper(ns[1..][i - 1]);
        }
      }
    }
  }

  lemma AddAdds(stack: seq<Open>, a: seq<Node>, b: seq<Node>)
    requires stack != []
    ensures Add(Add(stack, a), b) == Add(stack, a + b) && Add(stack, []) == stack
  {
    var top := stack[|stack| - 1];
    assert top.content + a + b == top.content + (a + b);
    assert top.content + [] == top.content;
    assert top.(content := top.content) == top;
  }

  /** Inside an open element, an item's events leave its normal form in the content. */
  lemma {:induction false} FeedNode(stack: seq<Open>, n: Node, rest: seq<Event>)
    requires stack != [] && !Flat(n).failed
    ensures Built(stack, Flat(n).events + rest) == Built(Add(stack, Normal(n)), rest)
    decreases n, 1
  {
    match n
    case Sequence(items) => FeedAll(stack, items, rest);
    case NotAnElement =>
    case Element(tag, _, content) =>
      if ContentOf(n) == [] {
        assert ([EmptyElement(tag, AttrsOf(n))] + rest)[1..] == rest;
        assert ContentOf(n) == [] ==> NormalAll(ContentOf(n)) == [];
      } else {
        FeedElement(stack, n, rest);
      }
    case _ =>
      var e := Flat(n).events[0];
      assert ([e] + rest)[1..] == rest;
  }

  lemma {:induction false} FeedElement(stack: seq<Open>, n: Node, rest: seq<Event>)
    requires n.Element? && ContentOf(n) != [] && !Flat(n).failed
    ensures Built(stack, Flat(n).events + rest)
         == Give(stack, MakeElement(n.tag, AttrsOf(n), NormalAll(ContentOf(n))), rest)
    decreases n, 0
  {
    var (start, end) := (StartElement(n.tag, AttrsOf(n)), EndElement(n.tag));
    var open := stack + [Open(n.tag, AttrsOf(n), [])];
    var inner := FlatAll(n.content.nodes);
    assert Flat(n).events + rest == [start] + (inner.events + ([end] + rest));
    assert (Flat(n).events + rest)[1..] == inner.events + ([end] + rest);
    FeedAll(open, n.content.nodes, [end] + rest);
    var closed := Add(open, NormalAll(n.content.nodes));
    assert ([end] + rest)[1..] == rest;
    assert closed[..|closed| - 1] == stack;
    assert [] + NormalAll(n.content.nodes) == NormalAll(n.content.nodes);
  }

  lemma {:induction false} FeedAll(stack: seq<Open>, ns: seq<Node>, rest: seq<Event>)
    requires stack != [] && !FlatAll(ns).failed
    ensures Built(stack, FlatAll(ns).events + rest) == Built(Add(stack, NormalAll(ns)), rest)
    decreases ns
  {
    AddAdds(stack, [], []);
    if ns == [] {
      assert FlatAll(ns).events + rest == rest;
    } else {
      var (first, others) := (Flat(ns[0]), FlatAll(ns[1..]));
      assert FlatAll(ns).events + rest == first.events + (others.events + rest);
      FeedNode(stack, ns[0], others.events + rest);
      FeedAll(Add(stack, Normal(ns[0])), ns[1..], rest);
      AddAdds(stack, Normal(ns[0]), NormalAll(ns[1..]));
    }
  }

  /** Normal forms are canonical. */
  lemma {:induction false} NormalCanonical(n: Node)
    ensures forall i :: 0 <= i < |Normal(n)| ==> Canonical(Normal(n)[i])
    decreases n
  {
    match n
    case Sequence(items) => NormalAllCanonical(items);
    case Element(_, _, Present(nodes)) => NormalAllCanonical(nodes);
    case _ =>
  }

  lemma {:induction false} NormalAllCanonical(ns: seq<Node>)
    ensures forall i :: 0 <= i < |NormalAll(ns)| ==> Canonical(NormalAll(ns)[i])
    decreases ns
  {
    if ns != [] {
      NormalCanonical(ns[0]);
      NormalAllCanonical(ns[1..]);
    }
  }

  lemma {:induction false} CanonicalNormal(n: Node)
    requires Canonical(n)
    ensures Normal(n) == [n]
    decreases n
  {
    match n
    case Element(_, _, Present(nodes)) => CanonicalAllNormal(nodes);
    case _ =>
  }

  lemma {:induction false} CanonicalAllNormal(ns: seq<Node>)
    requires forall i :: 0 <= i < |ns| ==> Canonical(ns[i])
    ensures NormalAll(ns) == ns
    decreases ns
  {
    if ns != [] {
      CanonicalNormal(ns[0]);
      CanonicalAllNormal(ns[1..]);
    }
  }

  /**
    The tree rebuilt from a tree's events, with nothing taken from the events
    that follow. It is the same tree exactly when the tree is canonical: an
    element without an attribute map comes back with an empty one.
  */
  lemma RoundTrip(t: Node, rest: seq<Event>)
    requires Proper(t) && !t.Sequence?
    ensures |Normal(t)| == 1 && !FlatAll([t]).failed
    ensures Built([], FlatAll([t]).events + rest) == Ok((Some(Normal(t)[0]), rest))
    ensures Normal(t)[0] == t <==> Canonical(t)
  {
    FlatFails(t);
    assert FlatAll([t]) == Flat(t) by {
      ThenAssociates(Flat(t), DONE, DONE);
      assert [t][1..] == [];
    }
    NormalCanonical(t);
    if Canonical(t) {
      CanonicalNormal(t);
    }
    if t.Element? && ContentOf(t) != [] {
      FeedElement([], t, rest);
    } else {
      var e := Flat(t).events[0];
      assert Flat(t).events + rest == [e] + rest && ([e] + rest)[1..] == rest;
    }
  }

  /** An element made without attributes comes back with an empty attribute map. */
  lemma AttrsAppear(tag: string, rest: seq<Event>)
    ensures var e := Element(tag, None, Absent);
      && FlatAll([e]) == Stream([EmptyElement(tag, map[])], false)
      && Built([], FlatAll([e]).events + rest) == Ok((Some(Element(tag, Some(map[]), Absent)), rest))
      && Element(tag, Some(map[]), Absent) != e
  {
    var e := Element(tag, None, Absent);
    assert [e][1..] == [];
    assert ([EmptyElement(tag, map[])] + rest)[1..] == rest;
  }

  // ------------------------------------------------------------------
  // From events to a tree and back

  /**
    Events as the flattener would write them, inside open elements with these
    tags: a start followed at once by its end is one empty element, and an end
    has the tag of its start.
  */
  function Tidy(tags: seq<string>, events: seq<Event>): seq<Event>
    decreases events
  {
    if events == [] then []
    else
      var (e, rest) := (events[0], events[1..]);
      match e
      case StartElement(tag, attrs) =>
        if rest != [] && rest[0].EndElement? then [EmptyElement(tag, attrs)] + Tidy(tags, rest[1..])
        else [e] + Tidy(tags + [tag], rest)
      case EndElement(_) =>
        if tags == [] then [e] + Tidy(tags, rest)
        else [EndElement(tags[|tags| - 1])] + Tidy(tags[..|tags| - 1], rest)
      case _ => [e] + Tidy(tags, rest)
  }

  /** Every end has the tag of its start, and does not follow it at once. */
  predicate WellWritten(tags: seq<string>, events: seq<Event>)
    decreases events
  {
    if events == [] then true
    else
      var (e, rest) := (events[0], events[1..]);
      match e
      case StartElement(tag, _) => !(rest != [] && rest[0].EndElement?) && WellWritten(tags + [tag], rest)
      case EndElement(tag) =>
        if tags == [] then WellWritten(tags, rest)
        else tag == tags[|tags| - 1] && WellWritten(tags[..|tags| - 1], rest)
      case _ => WellWritten(tags, rest)
  }

  lemma {:induction false} TidyIsSame(tags: seq<string>, events: seq<Event>)
    ensures |Tidy(tags, events)| <= |events|
    ensures Tidy(tags, events) == events <==> WellWritten(tags, events)
    decreases events
  {
    if events != [] {
      var (e, rest) := (events[0], events[1..]);
      assert events == [e] + rest;
      if e.StartElement? && rest != [] && rest[0].EndElement? {
        TidyIsSame(tags, rest[1..]);
      } else {
        var inner := if e.StartElement? then tags + [e.tag]
          else if e.EndElement? && tags != [] then tags[..|tags| - 1] else tags;
        TidyIsSame(inner, rest);
        var t := Tidy(tags, events);
        assert t == [t[0]] + Tidy(inner, rest);
        assert t == events <==> t[0] == e && t[1..] == rest;
      }
    }
  }

  function Tags(stack: seq<Open>): seq<string> {
    if stack == [] then [] else Tags(stack[..|stack| - 1]) + [stack[|stack| - 1].tag]
  }

  /** The events of what the open elements have so far. */
  function Written(stack: seq<Open>): seq<Event> {
    if stack == [] then []
    else
      var top := stack[|stack| - 1];
      Written(stack[..|stack| - 1]) + [StartElement(top.tag, top.attrs)] + FlatAll(top.content).events
  }

  ghost predicate AllCanonical(ns: seq<Node>) { forall i :: 0 <= i < |ns| ==> Canonical(ns[i]) }

  /** All content so far is canonical, and an element that has none is not about to end. */
  ghost predicate Building(stack: seq<Open>, events: seq<Event>) {
    && (forall i :: 0 <= i < |stack| ==> AllCanonical(stack[i].content))
    && (stack != [] && stack[|stack| - 1].content == [] && events != [] ==> !events[0].EndElement?)
  }

  lemma {:induction false} FlatAllAppend(ns: seq<Node>, n: Node)
    requires !FlatAll(ns).failed
    ensures FlatAll(ns + [n]) == Then(FlatAll(ns), Flat(n))
  {
    if ns == [] {
      ThenAssociates(Flat(n), DONE, DONE);
      assert ([] + [n])[1..] == [];
    } else {
      assert (ns + [n])[1..] == ns[1..] + [n];
      FlatAllAppend(ns[1..], n);
      ThenAssociates(Flat(ns[0]), FlatAll(ns[1..]), Flat(n));
    }
  }

  lemma {:induction false} CanonicalProper(n: Node)
    requires Canonical(n)
    ensures Proper(n)
    decreases n
  {
    match n
    case Element(_, _, Present(nodes)) =>
      forall i | 0 <= i < |nodes| ensures Proper(nodes[i]) {
        CanonicalProper(nodes[i]);
      }
    case _ =>
  }

  lemma CanonicalFlat(ns: seq<Node>)
    requires AllCanonical(ns)
    ensures !FlatAll(ns).failed
  {
    FlatAllFails(ns);
    forall i | 0 <= i < |ns| ensures Proper(ns[i]) {
      CanonicalProper(ns[i]);
    }
  }

  lemma ContentGrows(content: seq<Node>, node: Node)
    requires AllCanonical(content) && Canonical(node)
    ensures !Flat(node).failed && AllCanonical(content + [node])
    ensures FlatAll(content + [node]).events == FlatAll(content).events + Flat(node).events
  {
    CanonicalFlat(content);
    CanonicalProper(node);
    FlatFails(node);
    FlatAllAppend(content, node);
  }

  /** Handing a canonical node to the innermost element adds its events. */
  lemma AddWrites(below: seq<Open>, top: Open, node: Node)
    requires AllCanonical(top.content) && Canonical(node)
    ensures var (stack, stack1) := (below + [top], Add(below + [top], [node]));
      Written(stack1) == Written(stack) + Flat(node).events && Tags(stack1) == Tags(stack)
  {
    ContentGrows(top.content, node);
    var top1 := top.(content := top.content + [node]);
    assert Add(below + [top], [node]) == below + [top1];
    Regroup(Written(below) + [StartElement(top.tag, top.attrs)], FlatAll(top.content).events, Flat(node).events);
  }

  lemma Regroup(a: seq<Event>, b: seq<Event>, c: seq<Event>)
    ensures a + (b + c) == a + b + c
  {
  }

  /** The events between two points of a stream. */
  function Taken(events: seq<Event>, rest: seq<Event>): seq<Event>
    requires |rest| <= |events|
  {
    events[..|events| - |rest|]
  }

  /**
    What the builder does from some point on: it stops at the end of a tree,
    canonical, whose events are those so far, tidied.
  */
  ghost predicate Rewrites(stack: seq<Open>, events: seq<Event>) {
    var r := Built(stack, events);
    r.Ok? && r.value.0.Some? ==>
      var (t, rest) := (r.value.0.value, r.value.1);
      && |rest| < |events| && events == Taken(events, rest) + rest && Canonical(t)
      && Flat(t) == Stream(Written(stack) + Tidy(Tags(stack), Taken(events, rest)), false)
  }

  /** The events the builder uses up from some point on, if it builds a tree. */
  ghost function Consumed(stack: seq<Open>, events: seq<Event>): (taken: seq<Event>)
    ensures taken <= events
  {
    var r := Built(stack, events);
    if r.Ok? && r.value.0.Some? && |r.value.1| <= |events| then Taken(events, r.value.1) else []
  }

  /** After the first `n` of the events taken, the open elements have written `written` and have these tags. */
  ghost predicate Writes(stack: seq<Open>, taken: seq<Event>, n: nat, written: seq<Event>, tags: seq<string>) {
    n <= |taken| ==> written + Tidy(tags, taken[n..]) == Written(stack) + Tidy(Tags(stack), taken)
  }

  /** Some events that leave another stack and the events after them. */
  lemma RewriteStep(stack: seq<Open>, events: seq<Event>, n: nat, stack1: seq<Open>)
    requires 0 < n <= |events| && Built(stack, events) == Built(stack1, events[n..]) && Rewrites(stack1, events[n..])
    requires Writes(stack, Consumed(stack, events), n, Written(stack1), Tags(stack1))
    ensures Rewrites(stack, events)
  {
    hide Written, Tags, Tidy, Flat, Canonical;
    var r := Built(stack, events);
    hide Built;
    if r.Ok? && r.value.0.Some? {
      var (rest, taken) := (r.value.1, Consumed(stack, events));
      assert |taken| > n && taken[n..] == Taken(events[n..], rest);
      assert events == events[..n] + events[n..];
      assert events == taken + rest;
    }
  }

  /** A node that ends the whole tree. */
  lemma RewriteLast(stack: seq<Open>, node: Node, events: seq<Event>, n: nat)
    requires 0 < n <= |events| && Built(stack, events) == Ok((Some(node), events[n..])) && Canonical(node)
    requires Writes(stack, Consumed(stack, events), n, Flat(node).events, [])
    ensures Rewrites(stack, events)
  {
    CanonicalProper(node);
    FlatFails(node);
    hide Flat, Canonical, Built, Written, Tags;
    var (rest, taken) := (events[n..], events[..n]);
    assert events == taken + rest && Taken(events, rest) == taken;
    assert Consumed(stack, events) == taken && taken[n..] == [];
    assert Flat(node).events + Tidy([], taken[n..]) == Flat(node).events;
  }

  /** A node that is content of the innermost open element. */
  lemma RewriteInner(below: seq<Open>, stack: seq<Open>, node: Node, events: seq<Event>, n: nat)
    requires below != [] && AllCanonical(below[|below| - 1].content) && Canonical(node)
    requires 0 < n <= |events| && Built(stack, events) == Built(Add(below, [node]), events[n..])
    requires Rewrites(Add(below, [node]), events[n..])
    requires Writes(stack, Consumed(stack, events), n, Written(below) + Flat(node).events, Tags(below))
    ensures Rewrites(stack, events)
  {
    hide Flat, Canonical, AllCanonical, Written, Tags, Tidy, Add, Built, Rewrites;
    var top := below[|below| - 1];
    assert below == below[..|below| - 1] + [top];
    AddWrites(below[..|below| - 1], top, node);
    RewriteStep(stack, events, n, Add(below, [node]));
  }

  /** A node that ends here: the whole tree, or content of the innermost open element. */
  lemma RewriteGive(below: seq<Open>, stack: seq<Open>, node: Node, events: seq<Event>, n: nat)
    requires 0 < n <= |events| && Built(stack, events) == Give(below, node, events[n..]) && Canonical(node)
    requires below != [] ==> AllCanonical(below[|below| - 1].content) && Rewrites(Add(below, [node]), events[n..])
    requires Writes(stack, Consumed(stack, events), n, Written(below) + Flat(node).events, Tags(below))
    ensures Rewrites(stack, events)
  {
    if below == [] {
      assert Written(below) + Flat(node).events == Flat(node).events;
      hide Flat, Canonical, Writes, Rewrites;
      RewriteLast(stack, node, events, n);
    } else {
      hide Flat, Canonical, Writes, Rewrites;
      RewriteInner(below, stack, node, events, n);
    }
  }

  lemma StartRewrites(stack: seq<Open>, events: seq<Event>)
    requires events != [] && events[0].StartElement? && !(|events| > 1 && events[1].EndElement?)
    requires Rewrites(stack + [Open(events[0].tag, events[0].attrs, [])], events[1..])
    ensures Rewrites(stack, events)
  {
    var (e, stack1) := (events[0], stack + [Open(events[0].tag, events[0].attrs, [])]);
    assert Written(stack1) == Written(stack) + [e];
    hide Written, Tags;
    var taken := Consumed(stack, events);
    if taken != [] {
      assert taken[0] == e && (|taken| > 1 ==> taken[1] == events[1]);
      Regroup(Written(stack), [e], Tidy(Tags(stack1), taken[1..]));
    }
    hide Tidy, Rewrites;
    RewriteStep(stack, events, 1, stack1);
  }

  lemma PairBuilt(stack: seq<Open>, events: seq<Event>)
    requires |events| > 1 && events[0].StartElement? && events[1].EndElement?
    ensures Built(stack, events) == Give(stack, MakeElement(events[0].tag, events[0].attrs, []), events[2..])
  {
    hide Give;
    var open := stack + [Open(events[0].tag, events[0].attrs, [])];
    assert open[..|open| - 1] == stack;
    assert events[1..][1..] == events[2..];
  }

  lemma PairTidy(tags: seq<string>, events: seq<Event>)
    requires |events| > 1 && events[0].StartElement? && events[1].EndElement?
    ensures Tidy(tags, events) == [EmptyElement(events[0].tag, events[0].attrs)] + Tidy(tags, events[2..])
  {
    assert events[1..][1..] == events[2..];
  }

  /** A start and its end, at once. */
  lemma PairRewrites(stack: seq<Open>, events: seq<Event>)
    requires |events| > 1 && events[0].StartElement? && events[1].EndElement?
    requires var node := MakeElement(events[0].tag, events[0].attrs, []);
      stack != [] ==> AllCanonical(stack[|stack| - 1].content) && Rewrites(Add(stack, [node]), events[2..])
    ensures Rewrites(stack, events)
  {
    hide Written, Tags, Rewrites, AllCanonical, Built, Give, Add, Tidy;
    var (e, node) := (events[0], MakeElement(events[0].tag, events[0].attrs, []));
    assert Flat(node).events == [EmptyElement(e.tag, e.attrs)];
    PairBuilt(stack, events);
    var taken := Consumed(stack, events);
    if 2 <= |taken| {
      assert taken[0] == e && taken[1] == events[1];
      PairTidy(Tags(stack), taken);
      Regroup(Written(stack), Flat(node).events, Tidy(Tags(stack), taken[2..]));
    }
    RewriteGive(stack, stack, node, events, 2);
  }

  /** What an element that ends has written. */
  lemma EndWrites(below: seq<Open>, top: Open)
    requires AllCanonical(top.content) && top.content != []
    ensures Written(below) + Flat(MakeElement(top.tag, top.attrs, top.content)).events
         == Written(below + [top]) + [EndElement(top.tag)]
  {
    CanonicalFlat(top.content);
    var (start, inner, end) := ([StartElement(top.tag, top.attrs)], FlatAll(top.content).events, [EndElement(top.tag)]);
    assert Flat(MakeElement(top.tag, top.attrs, top.content)).events == start + (inner + end);
    hide Written, Flat, FlatAll, Canonical, AllCanonical;
    Regroup(Written(below), start, inner + end);
    Regroup(Written(below) + start, inner, end);
  }

  lemma EndBuilt(below: seq<Open>, top: Open, events: seq<Event>)
    requires events != [] && events[0].EndElement?
    ensures Built(below + [top], events) == Give(below, MakeElement(top.tag, top.attrs, top.content), events[1..])
  {
    hide Give;
    assert (below + [top])[..|below|] == below;
  }

  lemma EndTidy(tags: seq<string>, tag: string, events: seq<Event>)
    requires events != [] && events[0].EndElement?
    ensures Tidy(tags + [tag], events) == [EndElement(tag)] + Tidy(tags, events[1..])
  {
    assert (tags + [tag])[..|tags|] == tags;
  }

  /** The end of the innermost open element, which has content. */
  lemma EndRewrites(below: seq<Open>, top: Open, events: seq<Event>)
    requires events != [] && events[0].EndElement?
    requires AllCanonical(top.content) && top.content != []
    requires below != [] ==>
      && AllCanonical(below[|below| - 1].content)
      && Rewrites(Add(below, [MakeElement(top.tag, top.attrs, top.content)]), events[1..])
    ensures Rewrites(below + [top], events)
  {
    var node := MakeElement(top.tag, top.attrs, top.content);
    assert Canonical(node);
    hide Written, Tags, Flat, FlatAll, Canonical, AllCanonical, Rewrites, Built, Give, Add, Tidy;
    EndBuilt(below, top, events);
    EndWrites(below, top);
    var (taken, end) := (Consumed(below + [top], events), [EndElement(top.tag)]);
    if taken != [] {
      EndTidy(Tags(below), top.tag, taken);
      Regroup(Written(below + [top]), end, Tidy(Tags(below), taken[1..]));
    }
    RewriteGive(below, below + [top], node, events, 1);
  }

  /** An event that is a whole node. */
  lemma LeafRewrites(stack: seq<Open>, events: seq<Event>, node: Node)
    requires events != [] && !events[0].StartElement? && !events[0].EndElement?
    requires Built(stack, events) == Give(stack, node, events[1..])
    requires Canonical(node) && Flat(node) == One(events[0])
    requires stack != [] ==> AllCanonical(stack[|stack| - 1].content) && Rewrites(Add(stack, [node]), events[1..])
    ensures Rewrites(stack, events)
  {
    hide Written, Tags, Flat, Rewrites, Canonical, AllCanonical, Built, Give, Add;
    var e := events[0];
    var taken := Consumed(stack, events);
    if taken != [] {
      assert taken[0] == e;
      Regroup(Written(stack), [e], Tidy(Tags(stack), taken[1..]));
    }
    hide Tidy;
    RewriteGive(stack, stack, node, events, 1);
  }

  /** What a node that ends here leaves. */
  lemma {:induction false} NextRewrites(below: seq<Open>, node: Node, events: seq<Event>)
    requires Canonical(node) && forall i :: 0 <= i < |below| ==> AllCanonical(below[i].content)
    ensures below != [] ==> Rewrites(Add(below, [node]), events)
    decreases |events|, 1
  {
    if below != [] {
      BuilderRewrites(Add(below, [node]), events);
    }
  }

  /** The builder's tree is canonical, and flattening it writes the events it was built from, tidied. */
  lemma {:induction false} BuilderRewrites(stack: seq<Open>, events: seq<Event>)
    requires Building(stack, events)
    ensures Rewrites(stack, events)
    decreases |events|, 0
  {
    hide Rewrites;
    if events == [] {
      NothingRewritten(stack);
    } else {
      var (e, rest) := (events[0], events[1..]);
      match e
      case StartElement(tag, attrs) =>
        if rest != [] && rest[0].EndElement? {
          NextRewrites(stack, MakeElement(tag, attrs, []), events[2..]);
          PairRewrites(stack, events);
        } else {
          BuilderRewrites(stack + [Open(tag, attrs, [])], rest);
          StartRewrites(stack, events);
        }
      case EndElement(_) =>
        if stack == [] {
          NoTree(events);
        } else {
          var (below, top) := (stack[..|stack| - 1], stack[|stack| - 1]);
          assert stack == below + [top];
          NextRewrites(below, MakeElement(top.tag, top.attrs, top.content), rest);
          EndRewrites(below, top, events);
        }
      case EmptyElement(tag, attrs) =>
        NextRewrites(stack, MakeElement(tag, attrs, []), rest);
        LeafRewrites(stack, events, MakeElement(tag, attrs, []));
      case _ =>
        NextRewrites(stack, LeafNode(e), rest);
        LeafRewrites(stack, events, LeafNode(e));
    }
  }

  lemma NothingRewritten(stack: seq<Open>)
    ensures Rewrites(stack, [])
  {
  }

  /** An end without a start. */
  lemma NoTree(events: seq<Event>)
    requires events != [] && events[0].EndElement?
    ensures Rewrites([], events)
  {
  }

  /**
    The tree built from events, and the events of that tree: those it was built
    from, with a start and end at once written as an empty element and each end
    under its start's tag. They are the very same events exactly when every end
    has the tag of its start and does not follow it at once.
  */
  lemma EventsRoundTrip(events: seq<Event>)
    requires Built([], events).Ok? && Built([], events).value.0.Some?
    ensures var (t, rest) := (Built([], events).value.0.value, Built([], events).value.1);
      && |rest| < |events| && events == Taken(events, rest) + rest && Canonical(t)
      && FlatAll([t]) == Stream(Tidy([], Taken(events, rest)), false)
      && (FlatAll([t]).events == Taken(events, rest) <==> WellWritten([], Taken(events, rest)))
  {
    BuilderRewrites([], events);
    var (t, rest) := (Built([], events).value.0.value, Built([], events).value.1);
    TidyIsSame([], Taken(events, rest));
    assert [] + Tidy([], Taken(events, rest)) == Tidy([], Taken(events, rest));
    ThenAssociates(Flat(t), DONE, DONE);
    assert [t][1..] == [];
  }

  // ------------------------------------------------------------------
  // When the builder stops

  /** Starts less ends among the first `n` events. */
  function Level(events: seq<Event>, n: nat): int
    requires n <= |events|
  {
    if n == 0 then 0
    else
      (if events[0].StartElement? then 1 else if events[0].EndElement? then -1 else 0) + Level(events[1..], n - 1)
  }

  /** Inside an element the builder goes on until as many ends as starts and open elements have come. */
  ghost predicate ClosesAt(depth: nat, events: seq<Event>, n: int) {
    0 <= n <= |events| && depth + Level(events, n) == 0 && forall m :: 0 <= m < n ==> depth + Level(events, m) > 0
  }

  lemma ClosesLater(depth: nat, events: seq<Event>, n: nat)
    requires events != [] && depth > 0
    requires var d := depth + Level(events, 1); d > 0 && ClosesAt(d, events[1..], n)
    ensures ClosesAt(depth, events, n + 1)
  {
    assert Level(events, 1) == Level(events, 1) + Level(events[1..], 0);
    forall m | 0 <= m < n + 1 ensures depth + Level(events, m) > 0 {
      if m > 0 {
        assert Level(events, m) == Level(events, 1) + Level(events[1..], m - 1);
      }
    }
  }

  lemma {:induction false} InnerStops(stack: seq<Open>, events: seq<Event>)
    requires stack != []
    ensures match Built(stack, events)
            case Err(e) => e == NeverClosed && forall n :: 0 <= n <= |events| ==> |stack| + Level(events, n) > 0
            case Ok((node, rest)) =>
              && node.Some? && |rest| <= |events| && rest == events[|events| - |rest|..]
              && ClosesAt(|stack|, events, |events| - |rest|)
    decreases |events|
  {
    if events != [] {
      var (e, rest) := (events[0], events[1..]);
      assert Level(events, 1) == (if e.StartElement? then 1 else if e.EndElement? then -1 else 0) + Level(rest, 0);
      var stack1 :=
        if e.StartElement? then stack + [Open(e.tag, e.attrs, [])]
        else
          var (below, node) :=
            if e.EndElement? then
              var top := stack[|stack| - 1];
              (stack[..|stack| - 1], MakeElement(top.tag, top.attrs, top.content))
            else (stack, if e.EmptyElement? then MakeElement(e.tag, e.attrs, []) else LeafNode(e));
          if below == [] then [] else Add(below, [node]);
      if stack1 == [] {
        assert Built(stack, events).value.1 == rest;
      } else {
        InnerStops(stack1, rest);
        assert Built(stack, events) == Built(stack1, rest);
        InnerStep(stack, stack1, events);
      }
    }
  }

  lemma InnerStep(stack: seq<Open>, stack1: seq<Open>, events: seq<Event>)
    requires stack != [] && stack1 != [] && events != [] && |stack1| == |stack| + Level(events, 1)
    ensures forall n :: ClosesAt(|stack1|, events[1..], n) ==> ClosesAt(|stack|, events, n + 1)
    ensures (forall n :: 0 <= n < |events| ==> |stack1| + Level(events[1..], n) > 0) ==>
      forall n :: 0 <= n <= |events| ==> |stack| + Level(events, n) > 0
  {
    forall n | ClosesAt(|stack1|, events[1..], n) ensures ClosesAt(|stack|, events, n + 1) {
      ClosesLater(|stack|, events, n);
    }
    forall n | 1 <= n <= |events| ensures Level(events, n) == Level(events, 1) + Level(events[1..], n - 1) {
    }
  }

  /**
    The builder stops at the end of the first element, at once when the first
    event is a whole node; it fails on a first event that ends an element, and
    on an element that is never closed, and only then.
  */
  lemma BuilderStops(events: seq<Event>)
    ensures match Built([], events)
            case Ok((None, rest)) => events == [] && rest == []
            case Err(UnmatchedEnd) => events != [] && events[0].EndElement?
            case Err(NeverClosed) =>
              events != [] && events[0].StartElement? && forall n :: 1 <= n <= |events| ==> Level(events, n) > 0
            case Ok((Some(_), rest)) =>
              && events != [] && !events[0].EndElement? && |rest| < |events|
              && rest == events[|events| - |rest|..] && Level(events, |events| - |rest|) == 0
              && forall n :: 1 <= n < |events| - |rest| ==> Level(events, n) > 0
  {
    if events != [] {
      if events[0].StartElement? {
        StartStops(events);
      } else {
        WholeStops(events);
      }
    }
  }

  lemma LevelNext(events: seq<Event>, n: nat)
    requires 0 < n <= |events|
    ensures Level(events, n) == Level(events, 1) + Level(events[1..], n - 1)
  {
  }

  lemma WholeStops(events: seq<Event>)
    requires events != [] && !events[0].StartElement?
    ensures if events[0].EndElement? then Built([], events) == Err(UnmatchedEnd)
            else
              && Built([], events).Ok? && Built([], events).value.0.Some? && Built([], events).value.1 == events[1..]
              && Level(events, 1) == 0
  {
    assert Level(events[1..], 0) == 0;
  }

  lemma StartStops(events: seq<Event>)
    requires events != [] && events[0].StartElement?
    ensures match Built([], events)
            case Err(e) => e == NeverClosed && forall n :: 1 <= n <= |events| ==> Level(events, n) > 0
            case Ok((node, rest)) =>
              && node.Some? && |rest| < |events| && rest == events[|events| - |rest|..]
              && Level(events, |events| - |rest|) == 0
              && forall n :: 1 <= n < |events| - |rest| ==> Level(events, n) > 0
  {
    hide Built, Level;
    var (stack, later) := ([Open(events[0].tag, events[0].attrs, [])], events[1..]);
    InnerStops(stack, later);
    FirstStart(events);
    forall n | 1 <= n <= |events| ensures Level(events, n) == 1 + Level(later, n - 1) {
      LevelNext(events, n);
    }
    match Built(stack, later)
    case Err(e) =>
      forall n | 1 <= n <= |events| ensures Level(events, n) > 0 {
        assert |stack| + Level(later, n - 1) > 0;
      }
    case Ok((node, rest)) => DropFirst(events, |later| - |rest|);
  }

  lemma FirstStart(events: seq<Event>)
    requires events != [] && events[0].StartElement?
    ensures Built([], events) == Built([Open(events[0].tag, events[0].attrs, [])], events[1..])
    ensures Level(events, 1) == 1
  {
    var o := Open(events[0].tag, events[0].attrs, []);
    assert [] + [o] == [o] && Level(events[1..], 0) == 0;
  }

  lemma DropFirst(events: seq<Event>, n: nat)
    requires n < |events|
    ensures events[1..][n..] == events[n + 1..]
  {
  }
}
