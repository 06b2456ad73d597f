/**
 * OrderOverview: pairs the header row's participant names with today's
 * order cells, keeps the participants who ordered something, sorts them by
 * name and writes the plain-text summary used as the mail body.
 */
module Overview {
  import opened Strings

  /** One participant's order: the name exactly as in the header row and the
      order text with surrounding white space removed. */
  datatype LineItem = LineItem(name: string, order: string)

  /** NewOrderOverview(names, orders): the header cells after the date column
      and today's cells after the date column, index-aligned. The overview is
      never changed after it is built. */
  datatype OrderOverview = OrderOverview(names: seq<string>, orders: seq<string>) {

    /** The number of name slots, including the people who did not order; it
        never falls below the number of line items. */
    function MaxCount(): (r: nat)
      ensures r == |names|
      ensures |orders| >= |names| ==> |Eligible(names, orders, |names|)| <= r
    {
      |names|
    }

    /** LineItems: the participants with a non-empty name and a non-blank order,
        sorted by name. The result holds exactly the eligible slots' items,
        each as often as it occurs among them. */
    method LineItems() returns (items: seq<LineItem>)
      requires |names| <= |orders|
      ensures SortedByName(items)
      ensures multiset(items) == multiset(Eligible(names, orders, |names|))
      ensures |items| == |Eligible(names, orders, |names|)| <= MaxCount()
      ensures forall k :: 0 <= k < |items| ==> WellFormed(items[k])
    {
      var lines := CollectLines(this);
      var a := new LineItem[|lines|](k requires 0 <= k < |lines| => lines[k]);
      assert a[..] == lines;
      SortByName(a);
      items := a[..];
      EligibleWellFormed(names, orders, |names|);
      PermutationWellFormed(items, lines);
    }

    /** Summary: writes one line per line item, in LineItems order, into a
        buffer; the summary is empty exactly when nobody ordered. */
    method Summary() returns (s: string)
      requires |names| <= |orders|
      ensures exists items {:trigger IsLineItemsOf(this, items)} :: IsLineItemsOf(this, items) && s == Render(items)
      ensures s == "" <==> Eligible(names, orders, |names|) == []
    {
      var items := LineItems();
      var buffer := "";
      for i := 0 to |items|
        invariant buffer == Render(items[..i])
      {
        assert items[..i + 1][..i] == items[..i];
        buffer := buffer + Line(items[i]);
      }
      assert items[..|items|] == items;
      s := buffer;
      assert IsLineItemsOf(this, items);
      RenderEmptyIff(items);
    }
  }

  /** The line item slot i contributes, if any: a non-empty name and an order
      that is not all white space. */
  function Kept(name: string, order: string): seq<LineItem> {
    var trimmed := TrimSpace(order);
    if name != "" && trimmed != "" then [LineItem(name, trimmed)] else []
  }

  /** A line item as LineItems produces it: the name non-empty, the order
      non-empty and already trimmed. */
  predicate WellFormed(x: LineItem) {
    x.name != "" && x.order != [] && !IsSpace(x.order[0]) && !IsSpace(x.order[|x.order| - 1])
  }

  /** The line items of the first n slots, in slot order, before sorting. */
  function Eligible(names: seq<string>, orders: seq<string>, n: nat): (r: seq<LineItem>)
    requires n <= |names| && n <= |orders|
    ensures |r| <= n
  {
    if n == 0 then [] else Eligible(names, orders, n - 1) + Kept(names[n - 1], orders[n - 1])
  }

  /** Every item before sorting is well formed. */
  lemma {:induction false} EligibleWellFormed(names: seq<string>, orders: seq<string>, n: nat)
    requires n <= |names| && n <= |orders|
    ensures forall k :: 0 <= k < |Eligible(names, orders, n)| ==> WellFormed(Eligible(names, orders, n)[k])
  {
    if n > 0 {
      EligibleWellFormed(names, orders, n - 1);
      TrimSpaceEdges(orders[n - 1]);
    }
  }

  /** ByName.Less: line items compare by name only. */
  predicate ByNameLess(x: LineItem, y: LineItem) {
    Less(x.name, y.name)
  }

  /** What sort.Sort(ByName(...)) guarantees: no item is Less than one before it. */
  predicate SortedByName(s: seq<LineItem>) {
    forall i, j :: 0 <= i < j < |s| ==> !ByNameLess(s[j], s[i])
  }

  /** ByName.Swap on the slice backing the line items. */
  method ByNameSwap(a: array<LineItem>, i: nat, j: nat)
    requires i < a.Length && j < a.Length
    modifies a
    ensures a[..] == old(a[..])[i := old(a[j])][j := old(a[i])]
    ensures multiset(a[..]) == old(multiset(a[..]))
  {
    a[i], a[j] := a[j], a[i];
  }

  /** The position of an item in a[from..] that no other item there is Less than. */
  method MinByName(a: array<LineItem>, from: nat) returns (m: nat)
    requires from < a.Length
    ensures from <= m < a.Length
    ensures forall q :: from <= q < a.Length ==> !ByNameLess(a[q], a[m])
  {
    m := from;
    LessIrreflexive(a[from].name);
    for k := from + 1 to a.Length
      invariant from <= m < k
      invariant forall q :: from <= q < k ==> !ByNameLess(a[q], a[m])
    {
      if ByNameLess(a[k], a[m]) {
        forall q | from <= q < k ensures !ByNameLess(a[q], a[k]) {
          if ByNameLess(a[q], a[k]) { LessTransitive(a[q].name, a[k].name, a[m].name); }
        }
        LessIrreflexive(a[k].name);
        m := k;
      }
    }
  }

  /** sort.Sort(ByName(lines)): sorts in place using only ByName.Less and
      ByName.Swap. The library's algorithm is not part of this model; a
      selection sort stands in for it, and like the library it promises no
      order among items with equal names. */
  method SortByName(a: array<LineItem>)
    modifies a
    ensures SortedByName(a[..])
    ensures multiset(a[..]) == old(multiset(a[..]))
  {
    var i := 0;
    while i < a.Length
      invariant 0 <= i <= a.Length
      invariant forall p, q :: 0 <= p < q < i ==> !ByNameLess(a[q], a[p])
      invariant forall p, q :: 0 <= p < i <= q < a.Length ==> !ByNameLess(a[q], a[p])
      invariant multiset(a[..]) == old(multiset(a[..]))
    {
      var m := MinByName(a, i);
      ghost var before := a[..];
      forall p, q | 0 <= p < q < a.Length && p < i ensures !ByNameLess(before[q], before[p]) {
        assert before[q] == a[q] && before[p] == a[p];
      }
      assert forall q :: i <= q < a.Length ==> !ByNameLess(before[q], before[m]);
      ByNameSwap(a, i, m);
      forall p, q | 0 <= p < q <= i ensures !ByNameLess(a[q], a[p]) {
        assert a[p] == before[p];
        assert a[q] == if q == i then before[m] else before[q];
      }
      forall p, q | 0 <= p <= i < q < a.Length ensures !ByNameLess(a[q], a[p]) {
        assert a[p] == if p == i then before[m] else before[p];
        assert a[q] == if q == m then before[i] else before[q];
      }
      i := i + 1;
    }
  }

  /** The loop of LineItems: walks the name slots in order and appends the
      item of every slot with a non-empty name and a non-blank order. */
  method CollectLines(o: OrderOverview) returns (lines: seq<LineItem>)
    requires |o.names| <= |o.orders|
    ensures lines == Eligible(o.names, o.orders, |o.names|)
  {
    lines := [];
    for i := 0 to |o.names|
      invariant lines == Eligible(o.names, o.orders, i)
    {
      var order := TrimSpace(o.orders[i]);
      assert Kept(o.names[i], o.orders[i])
             == if o.names[i] != "" && order != "" then [LineItem(o.names[i], order)] else [];
      if o.names[i] != "" && order != "" {
        lines := lines + [LineItem(o.names[i], order)];
      }
    }
  }

  /** Reordering keeps the length and keeps every item well formed. */
  lemma PermutationWellFormed(a: seq<LineItem>, b: seq<LineItem>)
    requires multiset(a) == multiset(b)
    requires forall k :: 0 <= k < |b| ==> WellFormed(b[k])
    ensures |a| == |b|
    ensures forall k :: 0 <= k < |a| ==> WellFormed(a[k])
  {
    assert |multiset(a)| == |multiset(b)|;
    forall k | 0 <= k < |a| ensures WellFormed(a[k]) {
      assert a[k] in multiset(a);
      assert a[k] in b;
    }
  }

  /** One line of the summary: "<name>: <order>\n". */
  function Line(x: LineItem): string {
    x.name + ": " + x.order + "\n"
  }

  /** The summary text of a list of line items, one line per item in order. */
  function Render(items: seq<LineItem>): string {
    if items == [] then "" else Render(items[..|items| - 1]) + Line(items[|items| - 1])
  }

  /** The items LineItems may return for o: sorted by name and a permutation
      of the eligible slots' items. */
  ghost predicate IsLineItemsOf(o: OrderOverview, items: seq<LineItem>)
    requires |o.names| <= |o.orders|
  {
    SortedByName(items) && multiset(items) == multiset(Eligible(o.names, o.orders, |o.names|))
  }


  /** The summary of two lists is the summary of the first followed by that of the second. */
  lemma {:induction false} RenderAppend(a: seq<LineItem>, b: seq<LineItem>)
    ensures Render(a + b) == Render(a) + Render(b)
    decreases |b|
  {
    if b == [] {
      assert a + b == a;
    } else {
      var b' := b[..|b| - 1];
      assert (a + b)[..|a + b| - 1] == a + b';
      assert (a + b)[|a + b| - 1] == b[|b| - 1];
      RenderAppend(a, b');
      assert Render(a + b) == Render(a + b') + Line(b[|b| - 1]);
      assert Render(b) == Render(b') + Line(b[|b| - 1]);
    }
  }

  /** The summary is empty exactly when there are no line items. */
  lemma RenderEmptyIff(items: seq<LineItem>)
    ensures Render(items) == "" <==> items == []
  {
  }

  /** The summary starts with the first item's line, followed by the rest's summary. */
  lemma RenderCons(x: LineItem, rest: seq<LineItem>)
    ensures Render([x] + rest) == Line(x) + Render(rest)
  {
    RenderAppend([x], rest);
    assert Render([x]) == Line(x) by { assert [x][..0] == []; }
  }

  /** Slot i holds line item x: its name is non-empty, its trimmed order is
      non-empty, and x is that name with that trimmed order. */
  predicate SlotHolds(names: seq<string>, orders: seq<string>, i: nat, x: LineItem)
    requires i < |names| && i < |orders|
  {
    names[i] != "" && TrimSpace(orders[i]) != "" && x == LineItem(names[i], TrimSpace(orders[i]))
  }

  /** The items before sorting are exactly those the slots hold. */
  lemma {:induction false} EligibleMembers(names: seq<string>, orders: seq<string>, n: nat, x: LineItem)
    requires n <= |names| && n <= |orders|
    ensures x in Eligible(names, orders, n) <==> exists i :: 0 <= i < n && SlotHolds(names, orders, i, x)
  {
    if n > 0 {
      EligibleMembers(names, orders, n - 1, x);
      var before, kept := Eligible(names, orders, n - 1), Kept(names[n - 1], orders[n - 1]);
      assert Eligible(names, orders, n) == before + kept;
      assert x in kept <==> SlotHolds(names, orders, n - 1, x);
      if x in kept {
      } else if exists i :: 0 <= i < n && SlotHolds(names, orders, i, x) {
        var i :| 0 <= i < n && SlotHolds(names, orders, i, x);
        assert i < n - 1;
      }
    }
  }

  /** No two line items share a name. */
  predicate DistinctNames(s: seq<LineItem>) {
    forall i, j :: 0 <= i < j < |s| ==> s[i].name != s[j].name
  }

  /** The sort is not stable, but when no two participants share a name
      there is only one sorted order: any two results of LineItems agree. */
  lemma {:induction false} SortedPermutationUnique(a: seq<LineItem>, b: seq<LineItem>)
    requires SortedByName(a) && SortedByName(b)
    requires multiset(a) == multiset(b)
    requires DistinctNames(a)
    ensures a == b
    decreases |a|
  {
    assert |a| == |b| by { assert |multiset(a)| == |multiset(b)|; }
    if a != [] {
      SortedHeadsAgree(a, b);
      TailsPermutation(a, b);
      assert SortedByName(a[1..]) && SortedByName(b[1..]) && DistinctNames(a[1..]);
      SortedPermutationUnique(a[1..], b[1..]);
      assert a == [a[0]] + a[1..] && b == [b[0]] + b[1..];
    }
  }

  /** Two sorted permutations with distinct names start with the same item. */
  lemma SortedHeadsAgree(a: seq<LineItem>, b: seq<LineItem>)
    requires SortedByName(a) && SortedByName(b)
    requires multiset(a) == multiset(b) && a != []
    requires DistinctNames(a)
    ensures b != [] && a[0] == b[0]
  {
    assert a[0] in multiset(b);
    var j :| 0 <= j < |b| && b[j] == a[0];
    assert b[0] in multiset(a);
    var k :| 0 <= k < |a| && a[k] == b[0];
    if j != 0 && k != 0 {
      assert !Less(a[k].name, a[0].name);
      assert !Less(a[0].name, a[k].name);
      if a[k].name != a[0].name {
        LessTotal(a[k].name, a[0].name);
      }
      assert false;
    }
  }

  /** Removing the same first item from two permutations leaves permutations. */
  lemma TailsPermutation(a: seq<LineItem>, b: seq<LineItem>)
    requires multiset(a) == multiset(b) && a != [] && b != [] && a[0] == b[0]
    ensures multiset(a[1..]) == multiset(b[1..])
  {
    assert a == [a[0]] + a[1..] && b == [b[0]] + b[1..];
    assert multiset(a[1..]) == multiset(a) - multiset{a[0]};
    assert multiset(b[1..]) == multiset(b) - multiset{b[0]};
  }

  /** The slots of the example, before sorting. */
  lemma ExampleEligible()
    ensures Eligible(["Alice", "Bob", "Carol"], ["BLT", " ", "Soup"], 3)
            == [LineItem("Alice", "BLT"), LineItem("Carol", "Soup")]
  {
    assert TrimSpace("BLT") == "BLT";
    assert TrimSpace(" ") == "" by { assert TrimLeft(" ") == TrimLeft(" "[1..]); }
    assert TrimSpace("Soup") == "Soup";
  }

  /** Alice ordered "BLT", Bob's cell is a single space, Carol ordered
      "Soup": Bob is left out, and the summary has Alice's line, then Carol's. */
  lemma ExampleSummary(items: seq<LineItem>)
    requires IsLineItemsOf(OrderOverview(["Alice", "Bob", "Carol"], ["BLT", " ", "Soup"]), items)
    ensures items == [LineItem("Alice", "BLT"), LineItem("Carol", "Soup")]
    ensures Render(items) == "Alice: BLT\nCarol: Soup\n"
  {
    var expected := [LineItem("Alice", "BLT"), LineItem("Carol", "Soup")];
    ExampleEligible();
    ExampleSortedOnce();
    SortedPermutationUnique(expected, items);
    ExampleRender();
  }

  lemma ExampleSortedOnce()
    ensures var expected := [LineItem("Alice", "BLT"), LineItem("Carol", "Soup")];
            SortedByName(expected) && DistinctNames(expected)
  {
    assert Less("Alice", "Carol") && !Less("Carol", "Alice");
  }

  lemma ExampleRender()
    ensures Render([LineItem("Alice", "BLT"), LineItem("Carol", "Soup")]) == "Alice: BLT\nCarol: Soup\n"
  {
    var items := [LineItem("Alice", "BLT"), LineItem("Carol", "Soup")];
    assert items[..1] == [LineItem("Alice", "BLT")];
    assert [LineItem("Alice", "BLT")][..0] == [];
  }
}
