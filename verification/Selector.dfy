/**
 * The element picker's selector builder: selectorFor of server/assets/app-picker.js. An element is
 * named by its path of child indices from the document element; the DOM is not changed meanwhile.
 */
module Selector {
  import opened Text

  datatype Element = Element(name: string, id: string, kids: seq<Element>)

  type Path = seq<nat>

  /** One compound of the selector; compounds are joined by the child combinator. */
  datatype Part = Part(name: string, id: Option<string>, nth: Option<nat>)

  function Parent(p: Path): Path
    requires p != []
  {
    p[..|p| - 1]
  }

  function Last(p: Path): nat
    requires p != []
  {
    p[|p| - 1]
  }

  function Find(root: Element, p: Path): Option<Element>
    decreases |p|
  {
    if p == [] then Some(root)
    else
      match Find(root, Parent(p))
      case None => None
      case Some(e) => if Last(p) < |e.kids| then Some(e.kids[Last(p)]) else None
  }

  predicate In(root: Element, p: Path) {
    Find(root, p) != None
  }

  function Siblings(root: Element, p: Path): seq<Element>
    requires p != [] && In(root, p)
  {
    Find(root, Parent(p)).value.kids
  }

  function CountName(kids: seq<Element>, n: nat, name: string): nat
    requires n <= |kids|
  {
    if n == 0 then 0 else CountName(kids, n - 1, name) + if kids[n - 1].name == name then 1 else 0
  }

  /** The element's number among its siblings of the same name, from 1. */
  function NthOfType(root: Element, p: Path): nat
    requires In(root, p)
  {
    if p == [] then 1 else 1 + CountName(Siblings(root, p), Last(p), Find(root, p).value.name)
  }

  // ---- matching ---------------------------------------------------------------------------------------

  predicate MatchesPart(root: Element, p: Path, part: Part) {
    In(root, p) &&
    var e := Find(root, p).value;
    && e.name == part.name
    && (part.id != None ==> e.id == part.id.value)
    && (part.nth != None ==> NthOfType(root, p) == part.nth.value)
  }

  predicate Matches(root: Element, p: Path, selector: seq<Part>)
    decreases |selector|
  {
    if selector == [] then false
    else
      && MatchesPart(root, p, selector[|selector| - 1])
      && (|selector| == 1 || (p != [] && Matches(root, Parent(p), selector[..|selector| - 1])))
  }

  /** Document order: an ancestor first, then earlier siblings with all they hold. */
  predicate Before(p: Path, q: Path) {
    q != [] && (p == [] || p[0] < q[0] || (p[0] == q[0] && Before(p[1..], q[1..])))
  }

  /** What querySelector returns: a match with no other match before it. */
  ghost predicate FirstMatch(root: Element, p: Path, selector: seq<Part>) {
    Matches(root, p, selector) && forall q | Matches(root, q, selector) && q != p :: Before(p, q)
  }

  // ---- the selector -------------------------------------------------------------------------------------

  function PartOf(root: Element, p: Path): Part
    requires In(root, p)
  {
    var e, nth := Find(root, p).value, NthOfType(root, p);
    if e.id != "" then Part(e.name, Some(e.id), None) else Part(e.name, None, if nth > 1 then Some(nth) else None)
  }

  /** From the nearest ancestor with an id, or from below the document element. */
  function Chain(root: Element, p: Path): seq<Part>
    requires In(root, p)
    decreases |p|
  {
    if p == [] then []
    else if Find(root, p).value.id != "" then [PartOf(root, p)]
    else Chain(root, Parent(p)) + [PartOf(root, p)]
  }

  function SelectorOf(root: Element, p: Path): seq<Part>
    requires In(root, p)
  {
    if Chain(root, p) == [] then [Part("html", None, None)] else Chain(root, p)
  }

  /** :nth-of-type(1) is never written, and an id is only ever written at the head of the selector. */
  lemma {:induction false} NeverWritesFirst(root: Element, p: Path)
    requires In(root, p)
    ensures forall i | 0 <= i < |Chain(root, p)| :: Chain(root, p)[i].nth != Some(1)
    ensures forall i | 0 < i < |Chain(root, p)| :: Chain(root, p)[i].id == None
    decreases |p|
  {
    if p != [] && Find(root, p).value.id == "" {
      NeverWritesFirst(root, Parent(p));
      var up := Chain(root, Parent(p));
      assert Chain(root, p) == up + [PartOf(root, p)];
      forall i | 0 <= i < |up| ensures Chain(root, p)[i] == up[i] {
      }
    }
  }

  lemma ChainStep(root: Element, cur: Path, part: Part, path: seq<Part>)
    requires cur != [] && In(root, cur) && part == PartOf(root, cur) && part.id == None
    ensures Chain(root, cur) + path == Chain(root, Parent(cur)) + ([part] + path)
  {
    assert Chain(root, Parent(cur)) + [part] + path == Chain(root, Parent(cur)) + ([part] + path);
  }

  lemma ParentIn(root: Element, p: Path)
    requires p != [] && In(root, p)
    ensures In(root, Parent(p)) && Last(p) < |Siblings(root, p)|
    ensures Find(root, p).value == Siblings(root, p)[Last(p)]
  {
  }

  /** The inner loop: counts back over the earlier siblings of the same name. */
  method Number(kids: seq<Element>, i: nat) returns (nth: nat)
    requires i < |kids|
    ensures nth == 1 + CountName(kids, i, kids[i].name)
  {
    nth := 1;
    var sib := i;
    while sib > 0
      invariant 0 <= sib <= i
      invariant nth + CountName(kids, sib, kids[i].name) == 1 + CountName(kids, i, kids[i].name)
    {
      sib := sib - 1;
      if kids[sib].name == kids[i].name { nth := nth + 1; }
    }
  }

  method SelectorFor(root: Element, el: Path) returns (selector: seq<Part>)
    requires In(root, el)
    ensures selector == SelectorOf(root, el)
  {
    var path: seq<Part> := [];
    var cur: Path := el;
    assert Chain(root, el) + [] == Chain(root, el);
    while cur != []
      invariant In(root, cur) && Chain(root, el) == Chain(root, cur) + path
      decreases |cur|
    {
      var e := Find(root, cur).value;
      if e.id != "" {
        path := [Part(e.name, Some(e.id), None)] + path;
        break;
      }
      ParentIn(root, cur);
      var nth := Number(Siblings(root, cur), Last(cur));
      var part := Part(e.name, None, if nth > 1 then Some(nth) else None);
      ChainStep(root, cur, part, path);
      path := [part] + path;
      cur := Parent(cur);
    }
    assert [] + path == path;
    selector := if path == [] then [Part("html", None, None)] else path;
  }

  // ---- the selector finds its element -----------------------------------------------------------------------

  ghost predicate UniqueIds(root: Element) {
    forall p, q | In(root, p) && In(root, q) && Find(root, p).value.id != "" ::
      Find(root, p).value.id == Find(root, q).value.id ==> p == q
  }

  /** The name of this child of the document element occurs nowhere else but among its siblings. */
  ghost predicate TopNameStaysOnTop(root: Element, name: string) {
    forall q | In(root, q) && Find(root, q).value.name == name :: |q| == 1
  }

  predicate HasIdAt(root: Element, p: Path, k: nat) {
    k <= |p| && In(root, p[..k]) && Find(root, p[..k]).value.id != ""
  }

  /** Some element on the way has an id, or the way starts at a name found only there. */
  ghost predicate Anchored(root: Element, p: Path) {
    p == [] || (exists k | 1 <= k <= |p| :: HasIdAt(root, p, k)) ||
    (In(root, p[..1]) && TopNameStaysOnTop(root, Find(root, p[..1]).value.name))
  }

  lemma {:induction false} MatchesItself(root: Element, p: Path)
    requires p != [] && In(root, p)
    ensures Matches(root, p, Chain(root, p))
    decreases |p|
  {
    var chain := Chain(root, p);
    ParentIn(root, p);
    if Find(root, p).value.id == "" {
      assert chain[..|chain| - 1] == Chain(root, Parent(p));
      if |p| > 1 { MatchesItself(root, Parent(p)); }
    }
  }

  lemma {:induction false} CountNameGrows(kids: seq<Element>, j: nat, i: nat, name: string)
    requires j < i <= |kids| && kids[j].name == name
    ensures CountName(kids, i, name) > CountName(kids, j, name)
  {
    if j + 1 < i { CountNameGrows(kids, j, i - 1, name); }
  }

  /** Leaving out :nth-of-type(1) is harmless between siblings: a later match comes later. */
  lemma SiblingMatchIsLater(root: Element, p: Path, q: Path)
    requires p != [] && q != [] && In(root, p) && Find(root, p).value.id == "" && Parent(p) == Parent(q)
    requires MatchesPart(root, q, PartOf(root, p))
    ensures Last(q) >= Last(p)
  {
    if Last(q) < Last(p) {
      CountNameGrows(Siblings(root, p), Last(q), Last(p), Find(root, p).value.name);
    }
  }

  lemma {:induction false} BeforeSameLength(p: Path, q: Path, i: nat, j: nat)
    requires |p| == |q| && (Before(p, q) || (p == q && i < j))
    ensures Before(p + [i], q + [j])
  {
    if p == [] {
      assert q + [j] == [j] && p + [i] == [i];
    } else if p[0] == q[0] {
      assert (p + [i])[1..] == p[1..] + [i] && (q + [j])[1..] == q[1..] + [j];
      BeforeSameLength(p[1..], q[1..], i, j);
    }
  }

  lemma AnchoredParent(root: Element, p: Path)
    requires |p| > 1 && In(root, p) && Anchored(root, p) && Find(root, p).value.id == ""
    ensures Anchored(root, Parent(p))
  {
    assert p[..|p|] == p && Parent(p)[..1] == p[..1];
    if k :| 1 <= k <= |p| && HasIdAt(root, p, k) {
      assert Parent(p)[..k] == p[..k];
      assert HasIdAt(root, Parent(p), k);
    }
  }

  lemma IdMatchIsItself(root: Element, p: Path, q: Path)
    requires In(root, p) && UniqueIds(root) && Find(root, p).value.id != ""
    requires Matches(root, q, [PartOf(root, p)])
    ensures q == p
  {
  }

  lemma TopMatch(root: Element, p: Path, q: Path)
    requires |p| == 1 && In(root, p) && Find(root, p).value.id == "" && Anchored(root, p)
    requires MatchesPart(root, q, PartOf(root, p))
    ensures |q| == 1 && Last(q) >= Last(p)
  {
    assert p[..1] == p && !HasIdAt(root, p, 1);
    assert TopNameStaysOnTop(root, Find(root, p).value.name);
    assert Parent(p) == Parent(q);
    SiblingMatchIsLater(root, p, q);
  }

  lemma Extended(p: Path, q: Path)
    requires p != [] && q != [] && |p| == |q|
    requires Before(Parent(p), Parent(q)) || (Parent(p) == Parent(q) && Last(q) >= Last(p))
    ensures q == p || Before(p, q)
  {
    assert p == Parent(p) + [Last(p)] && q == Parent(q) + [Last(q)];
    if q != p { BeforeSameLength(Parent(p), Parent(q), Last(p), Last(q)); }
  }

  lemma ChainAbove(root: Element, p: Path, q: Path)
    requires |p| > 1 && In(root, p) && Find(root, p).value.id == "" && Matches(root, q, Chain(root, p))
    ensures In(root, Parent(p)) && q != [] && MatchesPart(root, q, PartOf(root, p))
    ensures Matches(root, Parent(q), Chain(root, Parent(p)))
  {
    var chain := Chain(root, p);
    ParentIn(root, p);
    MatchesItself(root, Parent(p));
    assert chain[..|chain| - 1] == Chain(root, Parent(p));
  }

  /** Any match of an anchored chain is at the same depth, and is the element itself or a later one. */
  lemma {:induction false} OtherMatchesAreLater(root: Element, p: Path, q: Path)
    requires p != [] && In(root, p) && UniqueIds(root) && Anchored(root, p)
    requires Matches(root, q, Chain(root, p))
    ensures |q| == |p| && (q == p || Before(p, q))
    decreases |p|
  {
    if Find(root, p).value.id != "" {
      IdMatchIsItself(root, p, q);
    } else if |p| == 1 {
      ParentIn(root, p);
      assert Chain(root, Parent(p)) == [] && Chain(root, p) == [PartOf(root, p)];
      TopMatch(root, p, q);
      Extended(p, q);
    } else {
      ChainAbove(root, p, q);
      AnchoredParent(root, p);
      OtherMatchesAreLater(root, Parent(p), Parent(q));
      if Parent(q) == Parent(p) { SiblingMatchIsLater(root, p, q); }
      Extended(p, q);
    }
  }

  /** The selector's first match in the document is the picked element itself. */
  lemma SelectorFindsItsElement(root: Element, p: Path)
    requires In(root, p) && root.name == "html" && UniqueIds(root) && Anchored(root, p)
    ensures FirstMatch(root, p, SelectorOf(root, p))
  {
    if p == [] {
      assert SelectorOf(root, p) == [Part("html", None, None)];
    } else {
      MatchesItself(root, p);
      forall q | Matches(root, q, SelectorOf(root, p)) && q != p ensures Before(p, q) {
        OtherMatchesAreLater(root, p, q);
      }
    }
  }

  /** In a document whose top-level names occur only on top, that is so for every element. */
  lemma EveryElementIsFound(root: Element)
    requires root.name == "html" && UniqueIds(root)
    requires forall i | 0 <= i < |root.kids| :: TopNameStaysOnTop(root, root.kids[i].name)
    ensures forall p | In(root, p) :: FirstMatch(root, p, SelectorOf(root, p))
  {
    forall p | In(root, p) ensures FirstMatch(root, p, SelectorOf(root, p)) {
      if p != [] {
        PrefixIn(root, p);
        ParentIn(root, p[..1]);
        assert p[..1][..0] == [] && Find(root, p[..1]).value == root.kids[p[0]];
        assert TopNameStaysOnTop(root, root.kids[p[0]].name);
      }
      SelectorFindsItsElement(root, p);
    }
  }

  lemma {:induction false} PrefixIn(root: Element, p: Path)
    requires p != [] && In(root, p)
    ensures In(root, p[..1])
    decreases |p|
  {
    if |p| > 1 {
      PrefixIn(root, Parent(p));
      assert Parent(p)[..1] == p[..1];
    } else {
      assert p[..1] == p;
    }
  }

  /** No element on the way has an id: the chain starts right below the document element. */
  ghost predicate NoIdOnTheWay(root: Element, p: Path) {
    forall k | 1 <= k <= |p| :: !HasIdAt(root, p, k)
  }

  lemma NoIdParent(root: Element, p: Path)
    requires p != [] && In(root, p) && NoIdOnTheWay(root, p)
    ensures Find(root, p).value.id == ""
    ensures NoIdOnTheWay(root, Parent(p))
  {
    assert p[..|p|] == p && !HasIdAt(root, p, |p|);
    forall k | 1 <= k <= |Parent(p)| ensures !HasIdAt(root, Parent(p), k) {
      assert Parent(p)[..k] == p[..k] && !HasIdAt(root, p, k);
    }
  }

  lemma TopMatchAnywhere(root: Element, p: Path, q: Path)
    requires |p| == 1 && In(root, p) && Find(root, p).value.id == ""
    requires MatchesPart(root, q, PartOf(root, p))
    ensures |q| == 1 ==> q == p || Before(p, q)
    ensures q == [] ==> Find(root, p).value.name == root.name
  {
    if |q| == 1 {
      assert Parent(p) == Parent(q);
      SiblingMatchIsLater(root, p, q);
      Extended(p, q);
    }
  }

  /**
   * With no id on the way, only the element itself and later ones match at its own depth; and
   * nothing shallower matches, unless the top-level name is the document element's own.
   */
  lemma {:induction false} SameDepthMatchesAreLater(root: Element, p: Path, q: Path)
    requires p != [] && In(root, p) && NoIdOnTheWay(root, p) && In(root, p[..1])
    requires Matches(root, q, Chain(root, p))
    ensures |q| == |p| ==> q == p || Before(p, q)
    ensures |q| < |p| ==> Find(root, p[..1]).value.name == root.name
    decreases |p|
  {
    NoIdParent(root, p);
    if |p| == 1 {
      ParentIn(root, p);
      assert p[..1] == p && Chain(root, Parent(p)) == [] && Chain(root, p) == [PartOf(root, p)];
      TopMatchAnywhere(root, p, q);
    } else {
      ChainAbove(root, p, q);
      assert Parent(p)[..1] == p[..1];
      SameDepthMatchesAreLater(root, Parent(p), Parent(q));
      if |q| == |p| {
        if Parent(q) == Parent(p) { SiblingMatchIsLater(root, p, q); }
        Extended(p, q);
      }
    }
  }

  lemma {:induction false} BeforeOneWay(p: Path, q: Path)
    requires Before(p, q)
    ensures p != q && !Before(q, p)
  {
    if p != [] && p[0] == q[0] { BeforeOneWay(p[1..], q[1..]); }
  }

  lemma {:induction false} BeforeTotal(p: Path, q: Path)
    ensures p == q || Before(p, q) || Before(q, p)
  {
    if p != [] && q != [] && p[0] == q[0] {
      BeforeTotal(p[1..], q[1..]);
      assert p == [p[0]] + p[1..] && q == [q[0]] + q[1..];
    }
  }

  /** The same name, and where p is not the first of its name among its siblings, the same number. */
  predicate Alike(root: Element, p: Path, q: Path)
    requires In(root, p) && In(root, q)
  {
    && Find(root, q).value.name == Find(root, p).value.name
    && (NthOfType(root, p) > 1 ==> NthOfType(root, q) == NthOfType(root, p))
  }

  /** q and its ancestors look like p and its ancestors, from p up to the top level. */
  predicate WaysAlike(root: Element, p: Path, q: Path)
    requires p != [] && In(root, p) && In(root, q)
    decreases |p|
  {
    ParentIsIn(root, p);
    Alike(root, p, q) && (|p| == 1 || (q != [] && (ParentIsIn(root, q); WaysAlike(root, Parent(p), Parent(q)))))
  }

  lemma ParentIsIn(root: Element, p: Path)
    ensures p != [] && In(root, p) ==> In(root, Parent(p))
  {
  }

  lemma {:induction false} MatchesIffWaysAlike(root: Element, p: Path, q: Path)
    requires p != [] && In(root, p) && In(root, q) && NoIdOnTheWay(root, p)
    ensures Matches(root, q, Chain(root, p)) <==> WaysAlike(root, p, q)
    decreases |p|
  {
    var chain := Chain(root, p);
    NoIdParent(root, p);
    ParentIn(root, p);
    if |p| > 1 {
      MatchesItself(root, Parent(p));
      assert chain[..|chain| - 1] == Chain(root, Parent(p));
      if q != [] {
        ParentIn(root, q);
        MatchesIffWaysAlike(root, Parent(p), Parent(q));
      }
    } else {
      assert Chain(root, Parent(p)) == [] && chain == [PartOf(root, p)];
    }
  }

  /** An element at another depth comes earlier in the document and looks alike all the way up. */
  ghost predicate DecoyBefore(root: Element, p: Path)
    requires p != [] && In(root, p)
  {
    exists q | In(root, q) :: |q| != |p| && Before(q, p) && WaysAlike(root, p, q)
  }

  /**
   * The exact condition on the document alone, for every element and with unique ids: the selector
   * misses its element if and only if no element on the way has an id and a decoy comes before it.
   */
  lemma SelectorFindsItsElementIff(root: Element, p: Path)
    requires In(root, p) && root.name == "html" && UniqueIds(root)
    ensures FirstMatch(root, p, SelectorOf(root, p)) <==> p == [] || !NoIdOnTheWay(root, p) || !DecoyBefore(root, p)
  {
    if p == [] || !NoIdOnTheWay(root, p) {
      SelectorFindsItsElement(root, p);
    } else {
      PrefixIn(root, p);
      MatchesItself(root, p);
      forall q | In(root, q) ensures Matches(root, q, SelectorOf(root, p)) <==> WaysAlike(root, p, q) {
        MatchesIffWaysAlike(root, p, q);
      }
      forall q | Matches(root, q, SelectorOf(root, p)) ensures In(root, q) && (|q| == |p| ==> q == p || Before(p, q)) {
        MatchedIsIn(root, q, SelectorOf(root, p));
        SameDepthMatchesAreLater(root, p, q);
      }
      forall q ensures Before(q, p) ==> q != p && !Before(p, q) {
        if Before(q, p) { BeforeOneWay(q, p); }
      }
      forall q ensures p == q || Before(p, q) || Before(q, p) { BeforeTotal(p, q); }
    }
  }

  lemma MatchedIsIn(root: Element, q: Path, selector: seq<Part>)
    requires Matches(root, q, selector)
    ensures In(root, q)
  {
  }

  /** An element of this name, below the top level, comes before p. */
  ghost predicate RecursBefore(root: Element, name: string, p: Path) {
    exists t | In(root, t) :: |t| >= 2 && Find(root, t).value.name == name && Before(t, p)
  }

  lemma {:induction false} AncestorBefore(t: Path, q: Path, p: Path)
    requires |t| <= |q| && q[..|t|] == t && |q| > |p| && Before(q, p)
    ensures Before(t, p)
  {
    if t != [] {
      if q[0] == p[0] {
        assert q[1..][..|t| - 1] == t[1..];
        AncestorBefore(t[1..], q[1..], p[1..]);
      }
    }
  }

  /** The top compound of a match: some ancestor of it has the top-level name. */
  lemma {:induction false} TopOfMatch(root: Element, p: Path, q: Path)
    requires p != [] && In(root, p) && NoIdOnTheWay(root, p) && In(root, p[..1]) && |q| >= |p|
    requires Matches(root, q, Chain(root, p))
    ensures var t := q[..|q| - |p| + 1];
            In(root, t) && Find(root, t).value.name == Find(root, p[..1]).value.name
    decreases |p|
  {
    NoIdParent(root, p);
    if |p| == 1 {
      ParentIn(root, p);
      assert p[..1] == p && q[..|q|] == q && Chain(root, Parent(p)) == [];
    } else {
      ChainAbove(root, p, q);
      assert Parent(p)[..1] == p[..1];
      TopOfMatch(root, Parent(p), Parent(q));
      assert Parent(q)[..|q| - |p| + 1] == q[..|q| - |p| + 1];
    }
  }

  /** Only a recurrence of the top-level name before the element can mislead; a later one is harmless. */
  lemma LaterRecurrenceIsHarmless(root: Element, p: Path)
    requires p != [] && In(root, p) && root.name == "html" && UniqueIds(root)
    requires In(root, p[..1]) && Find(root, p[..1]).value.name != root.name
    requires !RecursBefore(root, Find(root, p[..1]).value.name, p)
    ensures FirstMatch(root, p, SelectorOf(root, p))
  {
    if NoIdOnTheWay(root, p) {
      MatchesItself(root, p);
      forall q | In(root, q) && |q| != |p| && WaysAlike(root, p, q) ensures !Before(q, p) {
        MatchesIffWaysAlike(root, p, q);
        EarlierMatchNeedsRecurrence(root, p, q);
      }
    }
    SelectorFindsItsElementIff(root, p);
    if !NoIdOnTheWay(root, p) { SelectorFindsItsElement(root, p); }
  }

  lemma EarlierMatchNeedsRecurrence(root: Element, p: Path, q: Path)
    requires p != [] && In(root, p) && NoIdOnTheWay(root, p) && In(root, p[..1])
    requires Find(root, p[..1]).value.name != root.name && Matches(root, q, Chain(root, p)) && |q| != |p|
    ensures Before(q, p) ==> RecursBefore(root, Find(root, p[..1]).value.name, p)
  {
    SameDepthMatchesAreLater(root, p, q);
    TopOfMatch(root, p, q);
    if Before(q, p) { AncestorBefore(q[..|q| - |p| + 1], q, p); }
  }

  /** Without an anchor it can miss: a top-level name that recurs inside an earlier sibling. */
  lemma RecurringTopNameMisleads()
    ensures var b := Element("b", "", []);
            var root := Element("html", "", [Element("a", "", [b]), b]);
            && UniqueIds(root) && In(root, [1]) && SelectorOf(root, [1]) == [Part("b", None, None)]
            && Matches(root, [0, 0], SelectorOf(root, [1])) && Before([0, 0], [1])
  {
    var b := Element("b", "", []);
    var root := Element("html", "", [Element("a", "", [b]), b]);
    assert Parent([1]) == [] && Parent([0, 0]) == [0] && Parent([0]) == [];
    assert Find(root, [0]) == Some(root.kids[0]) && Find(root, [0, 0]) == Some(b) && Find(root, [1]) == Some(b);
    assert CountName(root.kids, 1, "b") == 0;
    assert Chain(root, [1]) == [Part("b", None, None)];
    forall p | In(root, p) ensures Find(root, p).value.id == "" { NoIds(root, p); }
  }

  lemma {:induction false} NoIds(root: Element, p: Path)
    requires In(root, p)
    requires root == Element("html", "", [Element("a", "", [Element("b", "", [])]), Element("b", "", [])])
    ensures Find(root, p).value in [root, root.kids[0], root.kids[1]]
    decreases |p|
  {
    if p != [] {
      ParentIn(root, p);
      NoIds(root, Parent(p));
    }
  }
}
