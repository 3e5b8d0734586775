/** The two "replace, then append" steps of the page: `showNotification`
    removes the first `.custom-notification` before appending a new one to
    the body, and `createRipple` removes the first `.ripple` inside the
    button before appending a new ripple to it. Either keeps at most one
    such child, provided there was at most one before. */
module SingleChild {
  import opened Options

  const NotificationClass := "custom-notification"
  const RippleClass := "ripple"

  datatype Kind = Success | Error

  /** The class a notification of this kind carries besides
      `custom-notification`. */
  function KindClass(k: Kind): string {
    match k
    case Success => "success"
    case Error => "error"
  }

  /** A child element: a notification panel, a ripple span, or any other
      element, known only by its class list. */
  datatype Node =
    | Notification(kind: Kind, icon: string, message: string)
    | Ripple(diameter: int)
    | Element(classes: set<string>)

  predicate HasClass(n: Node, cls: string) {
    match n
    case Notification(kind, _, _) => cls == NotificationClass || cls == KindClass(kind)
    case Ripple(_) => cls == RippleClass
    case Element(classes) => cls in classes
  }

  /** The icon shown in a notification panel: a check for success, a cross
      otherwise. */
  function NotificationIcon(k: Kind): (icon: string)
    ensures icon == "fa-check-circle" <==> k == Success
  {
    if k == Success then "fa-check-circle" else "fa-times-circle"
  }

  function CountClass(cs: seq<Node>, cls: string): nat
    decreases |cs|
  {
    if cs == [] then 0
    else (if HasClass(cs[0], cls) then 1 else 0) + CountClass(cs[1..], cls)
  }

  /** The children without the class, in order. */
  function Others(cs: seq<Node>, cls: string): seq<Node>
    decreases |cs|
  {
    if cs == [] then []
    else (if HasClass(cs[0], cls) then [] else [cs[0]]) + Others(cs[1..], cls)
  }

  /** The first child, in document order, that carries the class
      (the lookup both handlers make before removing). */
  function FirstWithClass(cs: seq<Node>, cls: string): (r: Option<nat>)
    ensures r.Some? ==> r.value < |cs| && HasClass(cs[r.value], cls)
    ensures r.Some? ==> forall j :: 0 <= j < r.value ==> !HasClass(cs[j], cls)
    ensures r.None? ==> forall j :: 0 <= j < |cs| ==> !HasClass(cs[j], cls)
    decreases |cs|
  {
    if cs == [] then None
    else if HasClass(cs[0], cls) then Some(0)
    else match FirstWithClass(cs[1..], cls)
      case None => None
      case Some(k) => Some(k + 1)
  }

  /** The child list after removing the first child with the class. */
  function RemoveFirst(cs: seq<Node>, cls: string): (r: seq<Node>)
    ensures FirstWithClass(cs, cls).None? ==> r == cs
    ensures FirstWithClass(cs, cls).Some? ==>
      |r| == |cs| - 1 && multiset(r) + multiset{cs[FirstWithClass(cs, cls).value]} == multiset(cs)
  {
    match FirstWithClass(cs, cls)
    case None => cs
    case Some(i) =>
      assert cs == cs[..i] + [cs[i]] + cs[i + 1..];
      cs[..i] + cs[i + 1..]
  }

  /** The child list after the remove-then-append step. */
  function Replace(cs: seq<Node>, cls: string, n: Node): (r: seq<Node>)
    ensures |cs| <= |r| <= |cs| + 1
    ensures |r| > 0 && r[|r| - 1] == n
    ensures forall m :: m in r ==> m == n || m in cs
  {
    RemoveFirst(cs, cls) + [n]
  }

  lemma {:induction false} CountAppend(a: seq<Node>, b: seq<Node>, cls: string)
    ensures CountClass(a + b, cls) == CountClass(a, cls) + CountClass(b, cls)
    ensures Others(a + b, cls) == Others(a, cls) + Others(b, cls)
    decreases |a|
  {
    if a == [] {
      assert a + b == b;
    } else {
      assert (a + b)[1..] == a[1..] + b;
      CountAppend(a[1..], b, cls);
    }
  }

  /** Counting a child list split around position `i`. */
  lemma CountSplit(cs: seq<Node>, i: nat, cls: string)
    requires i < |cs|
    ensures CountClass(cs, cls) == CountClass(cs[..i], cls) + CountClass([cs[i]], cls) + CountClass(cs[i + 1..], cls)
    ensures Others(cs, cls) == Others(cs[..i], cls) + Others([cs[i]], cls) + Others(cs[i + 1..], cls)
  {
    assert cs == cs[..i] + ([cs[i]] + cs[i + 1..]);
    CountAppend(cs[..i], [cs[i]] + cs[i + 1..], cls);
    CountAppend([cs[i]], cs[i + 1..], cls);
  }

  /** Removing the first child with the class lowers its count by one, if
      there was one, and leaves every other child in place and in order. */
  lemma RemoveFirstCounts(cs: seq<Node>, cls: string)
    ensures CountClass(RemoveFirst(cs, cls), cls) == if CountClass(cs, cls) == 0 then 0 else CountClass(cs, cls) - 1
    ensures Others(RemoveFirst(cs, cls), cls) == Others(cs, cls)
  {
    var first := FirstWithClass(cs, cls);
    if first.None? {
      NoneHasClass(cs, cls);
    } else {
      RemoveAtFirst(cs, first.value, cls);
    }
  }

  lemma RemoveAtFirst(cs: seq<Node>, i: nat, cls: string)
    requires i < |cs| && HasClass(cs[i], cls)
    requires forall j :: 0 <= j < i ==> !HasClass(cs[j], cls)
    ensures CountClass(cs, cls) == 1 + CountClass(cs[..i] + cs[i + 1..], cls)
    ensures Others(cs, cls) == Others(cs[..i] + cs[i + 1..], cls)
  {
    var before, after := cs[..i], cs[i + 1..];
    NoneHasClass(before, cls);
    CountSplit(cs, i, cls);
    CountAppend(before, after, cls);
    assert CountClass([cs[i]], cls) == 1;
    assert Others([cs[i]], cls) == [];
  }

  lemma {:induction false} NoneHasClass(cs: seq<Node>, cls: string)
    requires forall j :: 0 <= j < |cs| ==> !HasClass(cs[j], cls)
    ensures CountClass(cs, cls) == 0 && Others(cs, cls) == cs
    decreases |cs|
  {
    if cs != [] {
      NoneHasClass(cs[1..], cls);
    }
  }

  /** The replace step leaves max(1, count before) children with the class,
      keeps every other child in order, and ends with the new node. */
  lemma ReplaceCounts(cs: seq<Node>, cls: string, n: Node)
    requires HasClass(n, cls)
    ensures CountClass(Replace(cs, cls, n), cls) == if CountClass(cs, cls) == 0 then 1 else CountClass(cs, cls)
    ensures Others(Replace(cs, cls, n), cls) == Others(cs, cls)
    ensures Replace(cs, cls, n)[|Replace(cs, cls, n)| - 1] == n
  {
    RemoveFirstCounts(cs, cls);
    CountAppend(RemoveFirst(cs, cls), [n], cls);
    assert CountClass([n], cls) == 1;
    assert Others([n], cls) == [];
  }

  /** At most one child with the class before means exactly one after. */
  lemma ReplaceKeepsAtMostOne(cs: seq<Node>, cls: string, n: Node)
    requires HasClass(n, cls) && CountClass(cs, cls) <= 1
    ensures CountClass(Replace(cs, cls, n), cls) == 1
  {
    ReplaceCounts(cs, cls, n);
  }

  /** An element whose child list the page script rewrites: the body for
      notifications, a button for ripples. */
  class Container {
    var children: seq<Node>

    constructor (children: seq<Node>)
      ensures this.children == children
    {
      this.children := children;
    }

    /** Removes the first child with the class, when there is one. */
    method RemoveFirstWithClass(cls: string)
      modifies this
      ensures children == RemoveFirst(old(children), cls)
    {
      var existing := FirstWithClass(children, cls);
      if existing.Some? {
        var i := existing.value;
        children := children[..i] + children[i + 1..];
      }
    }

    method AppendChild(n: Node)
      modifies this
      ensures children == old(children) + [n]
    {
      children := children + [n];
    }
  }

  /** Showing a notification, up to the append; the slide-in and
      auto-dismiss timers are not modelled. The new panel is the body's
      last child and shows the icon of its kind. */
  method ShowNotification(body: Container, kind: Kind, message: string)
    modifies body
    ensures body.children == Replace(old(body.children), NotificationClass,
                                     Notification(kind, NotificationIcon(kind), message))
    ensures body.children[|body.children| - 1].icon == NotificationIcon(kind)
  {
    var icon := NotificationIcon(kind);
    body.RemoveFirstWithClass(NotificationClass);
    body.AppendChild(Notification(kind, icon, message));
  }

  /** `createRipple` on a button of the given client size; the ripple's
      diameter is the larger dimension. Its position is not modelled. */
  method CreateRipple(button: Container, clientWidth: int, clientHeight: int)
    modifies button
    ensures button.children == Replace(old(button.children), RippleClass,
                                       Ripple(if clientWidth >= clientHeight then clientWidth else clientHeight))
  {
    var diameter := if clientWidth >= clientHeight then clientWidth else clientHeight;
    var ripple := Ripple(diameter);
    button.RemoveFirstWithClass(RippleClass);
    button.AppendChild(ripple);
  }
}
