/** Ingestion of a JUnit report: a bounded stack traversal of the element tree, then one reversed
    pass that checks every declared counter. Element identity is an explicit identifier. */
module CounterCheck {
  import opened Basics

  const MAX_ELEMENTS: nat := 10_000
  const MAX_DEPTH: nat := 32

  datatype Tag =
    | TestSuites | TestSuite | TestCase | Properties | Property | SystemOut | SystemErr
    | FailureTag | ErrorTag | SkippedTag | OtherTag(name: string)

  datatype Counter = Tests | Failures | Errors | Skips | Disabled

  datatype Element = Element(id: nat, tag: Tag, attributes: map<Counter, string>, children: seq<Element>)

  predicate Allowed(parent: Tag, child: Tag) {
    match parent
    case TestSuites => child in {TestSuite, TestSuites, Properties, SystemOut, SystemErr}
    case TestSuite => child in {TestSuite, TestCase, Properties, SystemOut, SystemErr}
    case TestCase => child in {Properties, SystemOut, SystemErr, FailureTag, ErrorTag, SkippedTag}
    case Properties => child == Property
    case _ => false
  }

  // Structure.

  /** Every element at or below the depth limit, with only supported children. */
  predicate Shaped(e: Element, depth: nat)
    decreases e
  {
    && depth <= MAX_DEPTH
    && (forall c :: c in e.children ==> Allowed(e.tag, c.tag))
    && (forall c :: c in e.children ==> Shaped(c, depth + 1))
  }

  /** The order in which a stack visits a tree: a node, then its children from the last. */
  function Visit(e: Element): seq<Element>
    decreases e, 1
  {
    [e] + VisitAll(e.children)
  }

  function VisitAll(es: seq<Element>): seq<Element>
    decreases es, 0
  {
    if es == [] then []
    else Visit(es[|es| - 1]) + VisitAll(es[..|es| - 1])
  }

  lemma {:induction false} VisitAllSplit(a: seq<Element>, b: seq<Element>)
    ensures VisitAll(a + b) == VisitAll(b) + VisitAll(a)
    decreases |b|
  {
    if b == [] {
      assert a + b == a;
    } else {
      assert (a + b)[..|a + b| - 1] == a + b[..|b| - 1];
      VisitAllSplit(a, b[..|b| - 1]);
    }
  }

  datatype Pending = Pending(element: Element, depth: nat)

  function ElementsOf(stack: seq<Pending>): seq<Element> {
    seq(|stack|, i requires 0 <= i < |stack| => stack[i].element)
  }

  function AtDepth(es: seq<Element>, depth: nat): seq<Pending> {
    seq(|es|, i requires 0 <= i < |es| => Pending(es[i], depth))
  }

  predicate StackShaped(stack: seq<Pending>) {
    forall p :: p in stack ==> Shaped(p.element, p.depth)
  }

  lemma PopVisits(stack: seq<Pending>)
    requires stack != []
    ensures var top, rest := stack[|stack| - 1], stack[..|stack| - 1];
            VisitAll(ElementsOf(stack))
              == [top.element] + VisitAll(ElementsOf(rest + AtDepth(top.element.children, top.depth + 1)))
  {
    var top, rest := stack[|stack| - 1], stack[..|stack| - 1];
    var after := rest + AtDepth(top.element.children, top.depth + 1);
    assert ElementsOf(stack)[..|stack| - 1] == ElementsOf(rest);
    assert ElementsOf(after) == ElementsOf(rest) + top.element.children;
    VisitAllSplit(ElementsOf(rest), top.element.children);
  }

  lemma ShapedAtDepth(es: seq<Element>, depth: nat)
    ensures StackShaped(AtDepth(es, depth)) <==> forall c :: c in es ==> Shaped(c, depth)
  {
    var stack := AtDepth(es, depth);
    if StackShaped(stack) {
      forall c | c in es ensures Shaped(c, depth) {
        var i :| 0 <= i < |es| && es[i] == c;
        assert stack[i] in stack;
      }
    } else {
      var p :| p in stack && !Shaped(p.element, p.depth);
      assert p.element in es && p.depth == depth;
    }
  }

  predicate ChildrenAllowed(e: Element) {
    forall c :: c in e.children ==> Allowed(e.tag, c.tag)
  }

  lemma PopShaped(stack: seq<Pending>)
    requires stack != []
    ensures var top, rest := stack[|stack| - 1], stack[..|stack| - 1];
            StackShaped(stack) <==>
              && StackShaped(rest + AtDepth(top.element.children, top.depth + 1))
              && top.depth <= MAX_DEPTH && ChildrenAllowed(top.element)
  {
    var top, rest := stack[|stack| - 1], stack[..|stack| - 1];
    var pushed := AtDepth(top.element.children, top.depth + 1);
    ShapedAtDepth(top.element.children, top.depth + 1);
    ShapedConcat(rest, [top]);
    ShapedConcat(rest, pushed);
    assert stack == rest + [top];
    assert StackShaped([top]) <==> Shaped(top.element, top.depth) by {
      assert top in [top];
    }
  }

  lemma ShapedConcat(a: seq<Pending>, b: seq<Pending>)
    ensures StackShaped(a + b) <==> StackShaped(a) && StackShaped(b)
  {
    assert forall p :: p in a + b <==> p in a || p in b;
  }

  /** What is still on the stack explains what is still to be listed. */
  ghost predicate Explains(root: Element, elements: seq<Element>, stack: seq<Pending>) {
    && elements + VisitAll(ElementsOf(stack)) == Visit(root)
    && (StackShaped(stack) <==> Shaped(root, 0))
  }

  lemma ExplainsAtStart(root: Element)
    ensures Explains(root, [], [Pending(root, 0)])
  {
    var stack := [Pending(root, 0)];
    assert stack[0] in stack;
    assert ElementsOf(stack) == [root];
    assert VisitAll([root]) == Visit(root) + VisitAll([]);
  }

  lemma ExplainsAfterPop(root: Element, elements: seq<Element>, stack: seq<Pending>)
    requires stack != [] && Explains(root, elements, stack)
    ensures var top, rest := stack[|stack| - 1], stack[..|stack| - 1];
            var after := rest + AtDepth(top.element.children, top.depth + 1);
            && |elements| < |Visit(root)|
            && |VisitAll(ElementsOf(after))| < |VisitAll(ElementsOf(stack))|
            && (top.depth > MAX_DEPTH || !ChildrenAllowed(top.element) ==> !Shaped(root, 0))
            && (top.depth <= MAX_DEPTH && ChildrenAllowed(top.element) ==>
                  Explains(root, elements + [top.element], after))
  {
    PopVisits(stack);
    PopShaped(stack);
    var top, rest := stack[|stack| - 1], stack[..|stack| - 1];
    var later := VisitAll(ElementsOf(rest + AtDepth(top.element.children, top.depth + 1)));
    assert elements + ([top.element] + later) == (elements + [top.element]) + later;
  }

  lemma ExplainsAtEnd(root: Element, elements: seq<Element>)
    requires Explains(root, elements, [])
    ensures elements == Visit(root) && Shaped(root, 0)
  {
    assert ElementsOf([]) == [];
    assert StackShaped([]);
  }

  /** Push the children, or find one its parent does not support. */
  method PushChildren(element: Element, depth: nat, rest: seq<Pending>) returns (r: Option<seq<Pending>>)
    ensures r == if ChildrenAllowed(element) then Some(rest + AtDepth(element.children, depth + 1)) else None
  {
    var pending := rest;
    for i := 0 to |element.children|
      invariant pending == rest + AtDepth(element.children[..i], depth + 1)
      invariant forall c :: c in element.children[..i] ==> Allowed(element.tag, c.tag)
    {
      var child := element.children[i];
      if !Allowed(element.tag, child.tag) {
        assert child in element.children;
        return None;
      }
      pending := pending + [Pending(child, depth + 1)];
      assert element.children[..i + 1] == element.children[..i] + [child];
    }
    assert element.children[..|element.children|] == element.children;
    return Some(pending);
  }

  /** Accepts exactly the supported trees within the limits, listing every node in visiting order. */
  method ValidatedStructure(root: Element) returns (r: Option<seq<Element>>)
    ensures r == if Shaped(root, 0) && |Visit(root)| <= MAX_ELEMENTS then Some(Visit(root)) else None
    ensures r.Some? <==> WithinHeight(root, 32) && AllPlaced(Visit(root)) && |Visit(root)| <= 10_000
  {
    ShapedIff(root, 0);
    var pending := [Pending(root, 0)];
    var elements: seq<Element> := [];
    ExplainsAtStart(root);
    while pending != []
      invariant Explains(root, elements, pending)
      invariant |elements| <= MAX_ELEMENTS
      decreases |VisitAll(ElementsOf(pending))|
    {
      ExplainsAfterPop(root, elements, pending);
      var top := pending[|pending| - 1];
      if top.depth > MAX_DEPTH || |elements| >= MAX_ELEMENTS {
        return None;
      }
      elements := elements + [top.element];
      var after := PushChildren(top.element, top.depth, pending[..|pending| - 1]);
      if after.None? {
        return None;
      }
      pending := after.value;
    }
    ExplainsAtEnd(root, elements);
    return Some(elements);
  }

  // Which trees are accepted, by each node's place and the height alone.

  /** Where a child may stand. */
  predicate Placed(parent: Tag, child: Tag) {
    match child
    case TestSuites => parent == TestSuites
    case TestSuite => parent == TestSuites || parent == TestSuite
    case TestCase => parent == TestSuite
    case Property => parent == Properties
    case FailureTag => parent == TestCase
    case ErrorTag => parent == TestCase
    case SkippedTag => parent == TestCase
    case OtherTag(_) => false
    case _ => parent == TestSuites || parent == TestSuite || parent == TestCase
  }

  lemma AllowedIff(parent: Tag, child: Tag)
    ensures Allowed(parent, child) <==> Placed(parent, child)
  {
  }

  predicate AllPlaced(order: seq<Element>) {
    forall x, c :: x in order && c in x.children ==> Placed(x.tag, c.tag)
  }

  /** No node stands more than `room` levels below the element. */
  predicate WithinHeight(e: Element, room: int)
    decreases e
  {
    room >= 0 && forall c :: c in e.children ==> WithinHeight(c, room - 1)
  }

  lemma PlacedConcat(a: seq<Element>, b: seq<Element>)
    ensures AllPlaced(a + b) <==> AllPlaced(a) && AllPlaced(b)
  {
    assert forall x :: x in a + b <==> x in a || x in b;
  }

  predicate AllBelowPlaced(es: seq<Element>) {
    forall c :: c in es ==> AllPlaced(Visit(c))
  }

  predicate AllWithin(es: seq<Element>, room: int) {
    forall c :: c in es ==> WithinHeight(c, room)
  }

  predicate AllShaped(es: seq<Element>, depth: nat) {
    forall c :: c in es ==> Shaped(c, depth)
  }

  lemma {:induction false} PlacedChildren(es: seq<Element>)
    ensures AllPlaced(VisitAll(es)) <==> AllBelowPlaced(es)
    decreases |es|
  {
    if es != [] {
      var last, rest := es[|es| - 1], es[..|es| - 1];
      PlacedChildren(rest);
      PlacedConcat(Visit(last), VisitAll(rest));
      BelowSnoc(rest, last);
      assert es == rest + [last];
    }
  }

  lemma BelowSnoc(es: seq<Element>, e: Element)
    ensures AllBelowPlaced(es + [e]) <==> AllBelowPlaced(es) && AllPlaced(Visit(e))
  {
    assert forall c :: c in es + [e] <==> c in es || c == e;
  }

  lemma ShapedHere(e: Element, depth: nat)
    ensures Shaped(e, depth) <==> depth <= MAX_DEPTH && ChildrenAllowed(e) && AllShaped(e.children, depth + 1)
    ensures WithinHeight(e, 32 - depth) <==> depth <= MAX_DEPTH && AllWithin(e.children, 31 - depth)
  {
  }

  lemma PlacedBelow(e: Element)
    ensures AllPlaced(Visit(e)) <==> AllPlaced([e]) && AllBelowPlaced(e.children)
  {
    PlacedChildren(e.children);
    PlacedConcat([e], VisitAll(e.children));
  }

  lemma EachShaped(es: seq<Element>, depth: nat)
    requires forall c :: c in es ==> (Shaped(c, depth) <==> WithinHeight(c, 32 - depth) && AllPlaced(Visit(c)))
    ensures AllShaped(es, depth) <==> AllWithin(es, 32 - depth) && AllBelowPlaced(es)
  {
  }

  /** The accepted shape is exactly every child in its place and at most 32 levels below the root. */
  lemma {:induction false} ShapedIff(e: Element, depth: nat)
    ensures Shaped(e, depth) <==> WithinHeight(e, 32 - depth) && AllPlaced(Visit(e))
    decreases e
  {
    forall c | c in e.children
      ensures Shaped(c, depth + 1) <==> WithinHeight(c, 32 - (depth + 1)) && AllPlaced(Visit(c))
    {
      ShapedIff(c, depth + 1);
    }
    EachShaped(e.children, depth + 1);
    ShapedHere(e, depth);
    PlacedBelow(e);
    PlacedHere(e);
  }

  lemma PlacedHere(e: Element)
    ensures AllPlaced([e]) <==> ChildrenAllowed(e)
  {
    assert e in [e];
    forall c | c in e.children ensures Allowed(e.tag, c.tag) <==> Placed(e.tag, c.tag) {
      AllowedIff(e.tag, c.tag);
    }
  }

  // Every node once, parents first.

  /** How often a node stands in a tree. */
  function Occurrences(e: Element, x: Element): nat
    decreases e, 1
  {
    (if e == x then 1 else 0) + OccurrencesAll(e.children, x)
  }

  function OccurrencesAll(es: seq<Element>, x: Element): nat
    decreases es, 0
  {
    if es == [] then 0
    else Occurrences(es[|es| - 1], x) + OccurrencesAll(es[..|es| - 1], x)
  }

  /** The traversal lists every node exactly as often as it stands in the tree. */
  lemma {:induction false} VisitListsEachOnce(e: Element, x: Element)
    ensures multiset(Visit(e))[x] == Occurrences(e, x)
    decreases e, 1
  {
    VisitAllListsEachOnce(e.children, x);
    assert multiset(Visit(e)) == multiset([e]) + multiset(VisitAll(e.children));
  }

  lemma {:induction false} VisitAllListsEachOnce(es: seq<Element>, x: Element)
    ensures multiset(VisitAll(es))[x] == OccurrencesAll(es, x)
    decreases es, 0
  {
    if es != [] {
      VisitListsEachOnce(es[|es| - 1], x);
      VisitAllListsEachOnce(es[..|es| - 1], x);
      assert multiset(VisitAll(es)) == multiset(Visit(es[|es| - 1])) + multiset(VisitAll(es[..|es| - 1]));
    }
  }

  /** A later position of the visiting order holds the element. */
  predicate Later(order: seq<Element>, i: nat, e: Element) {
    exists j :: i < j < |order| && order[j] == e
  }

  predicate ParentsFirst(order: seq<Element>) {
    forall i, c :: 0 <= i < |order| && c in order[i].children ==> Later(order, i, c)
  }

  lemma VisitedChild(es: seq<Element>, c: Element)
    requires c in es
    ensures c in VisitAll(es)
    decreases |es|
  {
    if c == es[|es| - 1] {
      assert Visit(c)[0] == c;
    } else {
      assert c in es[..|es| - 1];
      VisitedChild(es[..|es| - 1], c);
    }
  }

  lemma ParentsFirstConcat(a: seq<Element>, b: seq<Element>)
    requires ParentsFirst(a) && ParentsFirst(b)
    ensures ParentsFirst(a + b)
  {
    var all := a + b;
    forall i, c | 0 <= i < |all| && c in all[i].children ensures Later(all, i, c) {
      if i < |a| {
        assert Later(a, i, c);
        var j :| i < j < |a| && a[j] == c;
        assert all[j] == c;
      } else {
        assert Later(b, i - |a|, c);
        var j :| i - |a| < j < |b| && b[j] == c;
        assert all[j + |a|] == c;
      }
    }
  }

  lemma {:induction false} VisitParentsFirst(e: Element)
    ensures ParentsFirst(Visit(e))
    decreases e, 1
  {
    VisitAllParentsFirst(e.children);
    var rest, all := VisitAll(e.children), Visit(e);
    forall i, c | 0 <= i < |all| && c in all[i].children ensures Later(all, i, c) {
      if i == 0 {
        VisitedChild(e.children, c);
        var j :| 0 <= j < |rest| && rest[j] == c;
        assert all[j + 1] == c;
      } else {
        assert Later(rest, i - 1, c);
        var j :| i - 1 < j < |rest| && rest[j] == c;
        assert all[j + 1] == c;
      }
    }
  }

  lemma {:induction false} VisitAllParentsFirst(es: seq<Element>)
    ensures ParentsFirst(VisitAll(es))
    decreases es, 0
  {
    if es != [] {
      VisitParentsFirst(es[|es| - 1]);
      VisitAllParentsFirst(es[..|es| - 1]);
      ParentsFirstConcat(Visit(es[|es| - 1]), VisitAll(es[..|es| - 1]));
    }
  }

  // Totals.

  datatype Counts = Counts(tests: nat, failures: nat, errors: nat, skips: nat, disabled: nat)

  const ZERO: Counts := Counts(0, 0, 0, 0, 0)

  function Add(a: Counts, b: Counts): Counts {
    Counts(a.tests + b.tests, a.failures + b.failures, a.errors + b.errors, a.skips + b.skips,
           a.disabled + b.disabled)
  }

  function Has(e: Element, tag: Tag): nat {
    if exists c :: c in e.children && c.tag == tag then 1 else 0
  }

  predicate IsSuite(e: Element) {
    e.tag == TestSuite || e.tag == TestSuites
  }

  predicate IsCounted(e: Element) {
    IsSuite(e) || e.tag == TestCase
  }

  /** The recursive meaning of the counters: the test cases of the subtree. */
  function Totals(e: Element): Counts
    decreases e, 1
  {
    if e.tag == TestCase then Counts(1, Has(e, FailureTag), Has(e, ErrorTag), Has(e, SkippedTag), 0)
    else if IsSuite(e) then TotalsAll(e.children)
    else ZERO
  }

  function TotalsAll(es: seq<Element>): Counts
    decreases es, 0
  {
    if es == [] then ZERO
    else Add(TotalsAll(es[..|es| - 1]), Totals(es[|es| - 1]))
  }

  function Select(c: Counts, key: Counter): nat {
    match key
    case Tests => c.tests
    case Failures => c.failures
    case Errors => c.errors
    case Skips => c.skips
    case Disabled => c.disabled
  }

  predicate Digits(v: string) {
    forall i :: 0 <= i < |v| ==> '0' <= v[i] <= '9'
  }

  function Number(v: string): nat
    requires Digits(v)
  {
    if v == "" then 0
    else 10 * Number(v[..|v| - 1]) + (v[|v| - 1] as int - '0' as int)
  }

  /** A number in exactly `k` decimal digits. */
  function Render(n: nat, k: nat): string {
    if k == 0 then "" else Render(n / 10, k - 1) + ["0123456789"[n % 10]]
  }

  lemma {:induction false} RenderReads(n: nat, k: nat)
    requires n < Power(k)
    ensures |Render(n, k)| == k && Digits(Render(n, k)) && Number(Render(n, k)) == n
  {
    if k > 0 {
      RenderReads(n / 10, k - 1);
      var v := Render(n, k);
      assert v[..k - 1] == Render(n / 10, k - 1);
      assert v[k - 1] as int - '0' as int == n % 10;
    }
  }

  function Power(k: nat): nat {
    if k == 0 then 1 else 10 * Power(k - 1)
  }

  lemma DigitAt(c: char)
    requires '0' <= c <= '9'
    ensures "0123456789"[c as int - '0' as int] == c
  {
  }

  lemma AppendDigit(n: nat, d: nat, k: nat)
    requires n < Power(k) && d < 10
    ensures 10 * n + d < Power(k + 1) && (10 * n + d) / 10 == n && (10 * n + d) % 10 == d
  {
  }

  lemma {:induction false} DigitsRender(v: string)
    requires Digits(v)
    ensures Number(v) < Power(|v|) && v == Render(Number(v), |v|)
  {
    if v != "" {
      var n := |v| - 1;
      DigitsRender(v[..n]);
      DigitAt(v[n]);
      AppendDigit(Number(v[..n]), v[n] as int - '0' as int, n);
      assert v == v[..n] + [v[n]];
    }
  }

  /** The accepted declarations of a count are exactly its decimal numerals of one to seven digits. */
  lemma DeclaresIff(v: string, actual: nat)
    ensures Declares(v, actual) <==> exists k: nat :: 1 <= k <= 7 && actual < Power(k) && v == Render(actual, k)
  {
    if Declares(v, actual) {
      DigitsRender(v);
    }
    forall k: nat | 1 <= k <= 7 && actual < Power(k) && v == Render(actual, k) ensures Declares(v, actual) {
      RenderReads(actual, k);
    }
  }

  /** At most seven ASCII decimal digits, at least one, denoting the actual value. */
  predicate Declares(v: string, actual: nat) {
    1 <= |v| <= 7 && Digits(v) && Number(v) == actual
  }

  // Totals as counts of test cases.

  /** What one test case contributes, and every other element does not. */
  function CaseCounts(e: Element): Counts {
    if e.tag != TestCase then Counts(0, 0, 0, 0, 0)
    else Counts(1,
                if exists c :: c in e.children && c.tag == FailureTag then 1 else 0,
                if exists c :: c in e.children && c.tag == ErrorTag then 1 else 0,
                if exists c :: c in e.children && c.tag == SkippedTag then 1 else 0,
                0)
  }

  /** The sum of the first `k` contributions. */
  function Tally(cs: seq<Counts>, k: nat): Counts
    requires k <= |cs|
  {
    if k == 0 then ZERO else Add(Tally(cs, k - 1), cs[k - 1])
  }

  function Contributions(order: seq<Element>): seq<Counts> {
    seq(|order|, i requires 0 <= i < |order| => CaseCounts(order[i]))
  }

  /** The test cases of a listing, and how many of them failed, erred or were skipped. */
  function CasesIn(order: seq<Element>): Counts {
    Tally(Contributions(order), |order|)
  }

  lemma AddAssociates(a: Counts, b: Counts, c: Counts)
    ensures Add(Add(a, b), c) == Add(a, Add(b, c))
  {
  }

  lemma {:induction false} TallyPrefix(a: seq<Counts>, b: seq<Counts>, k: nat)
    requires k <= |a|
    ensures Tally(a + b, k) == Tally(a, k)
  {
    if k > 0 {
      TallyPrefix(a, b, k - 1);
    }
  }

  lemma {:induction false} TallyConcat(a: seq<Counts>, b: seq<Counts>, j: nat)
    requires j <= |b|
    ensures Tally(a + b, |a| + j) == Add(Tally(a, |a|), Tally(b, j))
  {
    if j == 0 {
      TallyPrefix(a, b, |a|);
      AddZero(Tally(a, |a|));
    } else {
      TallyConcat(a, b, j - 1);
      assert (a + b)[|a| + j - 1] == b[j - 1];
      AddAssociates(Tally(a, |a|), Tally(b, j - 1), b[j - 1]);
    }
  }

  predicate IsNothing(c: Counts) {
    c.tests == c.failures == c.errors == c.skips == c.disabled == 0
  }

  lemma AddNothing(a: Counts, b: Counts)
    requires IsNothing(a) && IsNothing(b)
    ensures IsNothing(Add(a, b))
  {
  }

  lemma {:induction false} TallyNothing(cs: seq<Counts>, k: nat)
    requires k <= |cs| && forall i :: 0 <= i < |cs| ==> IsNothing(cs[i])
    ensures IsNothing(Tally(cs, k))
  {
    if k > 0 {
      TallyNothing(cs, k - 1);
      AddNothing(Tally(cs, k - 1), cs[k - 1]);
    }
  }

  lemma CasesConcat(a: seq<Element>, b: seq<Element>)
    ensures CasesIn(a + b) == Add(CasesIn(a), CasesIn(b))
  {
    assert Contributions(a + b) == Contributions(a) + Contributions(b);
    TallyConcat(Contributions(a), Contributions(b), |b|);
  }

  lemma CasesOfOne(e: Element)
    ensures CasesIn([e]) == CaseCounts(e)
  {
    var cs := Contributions([e]);
    assert cs[0] == CaseCounts(e);
    assert Tally(cs, 1) == Add(Tally(cs, 0), cs[0]);
    AddZero(CaseCounts(e));
  }

  lemma NoCases(order: seq<Element>)
    requires forall x :: x in order ==> x.tag != TestCase
    ensures CasesIn(order) == ZERO
  {
    forall i | 0 <= i < |order| ensures IsNothing(Contributions(order)[i]) {
      assert order[i] in order;
    }
    TallyNothing(Contributions(order), |order|);
  }

  /** Below anything but a suite there is no test case. */
  lemma {:induction false} CaseFree(e: Element, depth: nat, x: Element)
    requires Shaped(e, depth) && !IsSuite(e) && x in VisitAll(e.children)
    ensures x.tag != TestCase
    decreases e
  {
    var c := VisitedUnder(e.children, x);
    if x != c {
      CaseFree(c, depth + 1, x);
    }
  }

  lemma {:induction false} VisitedUnder(es: seq<Element>, x: Element) returns (c: Element)
    requires x in VisitAll(es)
    ensures c in es && (x == c || x in VisitAll(c.children))
    decreases |es|
  {
    var last, rest := es[|es| - 1], es[..|es| - 1];
    if x in Visit(last) {
      c := last;
    } else {
      c := VisitedUnder(rest, x);
    }
  }

  lemma VisitCases(e: Element)
    ensures CasesIn(Visit(e)) == Add(CaseCounts(e), CasesIn(VisitAll(e.children)))
  {
    CasesConcat([e], VisitAll(e.children));
    CasesOfOne(e);
  }

  lemma OwnTotals(e: Element)
    ensures !IsSuite(e) ==> Totals(e) == CaseCounts(e)
    ensures IsSuite(e) ==> Totals(e) == TotalsAll(e.children) && CaseCounts(e) == ZERO
  {
  }

  lemma AddZero(c: Counts)
    ensures Add(c, ZERO) == c && Add(ZERO, c) == c
  {
  }

  /** The recursive totals of an accepted tree count the test cases that stand anywhere in it, and how
      many of them failed, erred or were skipped. */
  lemma {:induction false} TotalsCountCases(e: Element, depth: nat)
    requires Shaped(e, depth)
    ensures Totals(e) == CasesIn(Visit(e))
    decreases e, 1
  {
    VisitCases(e);
    OwnTotals(e);
    if IsSuite(e) {
      AllCountCases(e.children, depth + 1);
      AddZero(TotalsAll(e.children));
    } else {
      forall x | x in VisitAll(e.children) ensures x.tag != TestCase {
        CaseFree(e, depth, x);
      }
      NoCases(VisitAll(e.children));
      AddZero(CaseCounts(e));
    }
  }

  lemma AddSwap(a: Counts, b: Counts)
    ensures Add(a, b) == Add(b, a)
  {
  }

  lemma {:induction false} AllCountCases(es: seq<Element>, depth: nat)
    requires AllShaped(es, depth)
    ensures TotalsAll(es) == CasesIn(VisitAll(es))
    decreases es, 0
  {
    if es != [] {
      var last, rest := es[|es| - 1], es[..|es| - 1];
      TotalsCountCases(last, depth);
      AllCountCases(rest, depth);
      CasesConcat(Visit(last), VisitAll(rest));
      AddSwap(CasesIn(Visit(last)), CasesIn(VisitAll(rest)));
    }
  }

  predicate DeclaredRight(e: Element, totals: Counts) {
    forall key :: key in e.attributes ==> Declares(e.attributes[key], Select(totals, key))
  }

  /** Every declared counter of every suite equals its recursive total. */
  predicate CountersRight(order: seq<Element>) {
    forall e :: e in order && IsSuite(e) ==> DeclaredRight(e, Totals(e))
  }

  /** The same by recursion on the tree, without an order. */
  predicate RightBelow(e: Element)
    decreases e
  {
    && (IsSuite(e) ==> DeclaredRight(e, Totals(e)))
    && (forall c :: c in e.children ==> RightBelow(c))
  }

  lemma {:induction false} CountersRightIff(e: Element)
    ensures CountersRight(Visit(e)) <==> RightBelow(e)
    decreases e, 1
  {
    CountersRightAll(e.children);
    CountersRightConcat([e], VisitAll(e.children));
    assert CountersRight([e]) <==> (IsSuite(e) ==> DeclaredRight(e, Totals(e))) by {
      assert e in [e];
    }
  }

  lemma {:induction false} CountersRightAll(es: seq<Element>)
    ensures CountersRight(VisitAll(es)) <==> forall c :: c in es ==> RightBelow(c)
    decreases es, 0
  {
    if es != [] {
      var last, rest := es[|es| - 1], es[..|es| - 1];
      assert es == rest + [last];
      CountersRightIff(last);
      CountersRightAll(rest);
      CountersRightConcat(Visit(last), VisitAll(rest));
    }
  }

  lemma CountersRightConcat(a: seq<Element>, b: seq<Element>)
    ensures CountersRight(a + b) <==> CountersRight(a) && CountersRight(b)
  {
    assert forall e :: e in a + b <==> e in a || e in b;
  }

  predicate DistinctIds(order: seq<Element>) {
    forall i, j :: 0 <= i < j < |order| ==> order[i].id != order[j].id
  }

  /** The table filled by the reversed pass down to position `i`. */
  predicate Tabulated(order: seq<Element>, i: nat, counts: map<nat, Counts>) {
    && (forall j :: i <= j < |order| && IsCounted(order[j]) ==>
          order[j].id in counts && counts[order[j].id] == Totals(order[j]))
    && (forall j :: i <= j < |order| && !IsCounted(order[j]) ==> order[j].id !in counts)
    && (forall j :: 0 <= j < i && j < |order| ==> order[j].id !in counts)
  }

  function Looked(counts: map<nat, Counts>, e: Element): Counts {
    if e.id in counts then counts[e.id] else ZERO
  }

  lemma ChildTotals(order: seq<Element>, i: nat, counts: map<nat, Counts>, k: nat)
    requires ParentsFirst(order) && i < |order| && Tabulated(order, i + 1, counts) && k < |order[i].children|
    ensures Looked(counts, order[i].children[k]) == Totals(order[i].children[k])
  {
    var c := order[i].children[k];
    assert c in order[i].children;
    assert Later(order, i, c);
    var j :| i < j < |order| && order[j] == c;
  }

  lemma AddLooked(children: seq<Element>, counts: map<nat, Counts>, k: nat)
    requires k < |children| && Looked(counts, children[k]) == Totals(children[k])
    ensures TotalsAll(children[..k + 1])
         == if children[k].id in counts then Add(TotalsAll(children[..k]), counts[children[k].id])
            else TotalsAll(children[..k])
  {
    assert children[..k + 1][..k] == children[..k];
  }

  method SumChildren(children: seq<Element>, counts: map<nat, Counts>) returns (totals: Counts)
    requires forall k :: 0 <= k < |children| ==> Looked(counts, children[k]) == Totals(children[k])
    ensures totals == TotalsAll(children)
  {
    totals := ZERO;
    for k := 0 to |children|
      invariant totals == TotalsAll(children[..k])
    {
      AddLooked(children, counts, k);
      if children[k].id in counts {
        totals := Add(totals, counts[children[k].id]);
      }
    }
    assert children[..|children|] == children;
  }

  /** One pass from the last visited element decides exactly the recursive property. */
  method ValidateCounts(root: Element, elements: seq<Element>) returns (ok: bool)
    requires elements == Visit(root) && DistinctIds(elements)
    ensures ok <==> RightBelow(root)
  {
    VisitParentsFirst(root);
    CountersRightIff(root);
    var counts: map<nat, Counts> := map[];
    var i := |elements|;
    while i > 0
      invariant 0 <= i <= |elements|
      invariant Tabulated(elements, i, counts)
      invariant forall j :: i <= j < |elements| && IsSuite(elements[j]) ==>
                  DeclaredRight(elements[j], Totals(elements[j]))
    {
      i := i - 1;
      var e := elements[i];
      if e.tag == TestCase {
        counts := counts[e.id := Counts(1, Has(e, FailureTag), Has(e, ErrorTag), Has(e, SkippedTag), 0)];
      } else if IsSuite(e) {
        forall k | 0 <= k < |e.children| ensures Looked(counts, e.children[k]) == Totals(e.children[k]) {
          ChildTotals(elements, i, counts, k);
        }
        var totals := SumChildren(e.children, counts);
        counts := counts[e.id := totals];
        if !DeclaredRight(e, totals) {
          assert e in elements;
          return false;
        }
      }
    }
    return true;
  }
}
