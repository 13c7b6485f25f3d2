/** The work-history tabs: a row of tab buttons in their original order, and a
    stacked content area whose order puts the clicked tab on top. */
module Tabs {

  datatype TabItem = TabItem(title: string, value: string, content: string)

  /** The stack order after clicking tab `i`: that tab first, the others after it
      in their original order. */
  function MoveToFront<T>(s: seq<T>, i: nat): (r: seq<T>)
    requires i < |s|
    ensures |r| == |s| && r[0] == s[i]
  {
    [s[i]] + s[..i] + s[i + 1..]
  }

  /** Where each element ends up: the clicked one on top, those before it shifted
      down by one, those after it in place. */
  lemma MoveToFrontAt<T>(s: seq<T>, i: nat)
    requires i < |s|
    ensures |MoveToFront(s, i)| == |s|
    ensures MoveToFront(s, i)[0] == s[i]
    ensures forall k :: 1 <= k <= i ==> MoveToFront(s, i)[k] == s[k - 1]
    ensures forall k :: i < k < |s| ==> MoveToFront(s, i)[k] == s[k]
  {
  }

  /** The new stack holds exactly the original tabs. */
  lemma MoveToFrontPermutes<T>(s: seq<T>, i: nat)
    requires i < |s|
    ensures multiset(MoveToFront(s, i)) == multiset(s)
  {
    assert s == s[..i] + [s[i]] + s[i + 1..];
  }

  /** Two tabs other than the clicked one keep their relative order. */
  lemma MoveToFrontKeepsOrder<T>(s: seq<T>, i: nat, a: nat, b: nat)
    requires i < |s| && a < b < |s| && a != i && b != i
    ensures exists a', b' :: 1 <= a' < b' < |s|
                             && MoveToFront(s, i)[a'] == s[a] && MoveToFront(s, i)[b'] == s[b]
  {
    MoveToFrontAt(s, i);
    var a' := if a < i then a + 1 else a;
    var b' := if b < i then b + 1 else b;
    assert MoveToFront(s, i)[a'] == s[a];
    assert MoveToFront(s, i)[b'] == s[b];
  }

  /** Clicking the first tab restores the original order. */
  lemma MoveFirstToFront<T>(s: seq<T>)
    requires |s| > 0
    ensures MoveToFront(s, 0) == s
  {
    assert [s[0]] + s[1..] == s;
  }

  /** The `splice` / `unshift` on a copy of the tab list, done in place: the element
      at `i` is lifted out, everything before it moves down one slot, and it is put
      back at the front. */
  method MoveToFrontInPlace<T>(a: array<T>, i: nat)
    requires i < a.Length
    modifies a
    ensures a[..] == MoveToFront(old(a[..]), i)
  {
    var selected := a[i];
    var j := i;
    while j > 0
      invariant 0 <= j <= i
      invariant forall k :: 0 <= k <= j ==> a[k] == old(a[k])
      invariant forall k :: j < k <= i ==> a[k] == old(a[k - 1])
      invariant forall k :: i < k < a.Length ==> a[k] == old(a[k])
    {
      a[j] := a[j - 1];
      j := j - 1;
    }
    a[0] := selected;
    MoveToFrontAt(old(a[..]), i);
  }

  /** A tab button is highlighted when its value is the active tab's value. */
  predicate IsActive(activeTab: TabItem, tab: TabItem)
    ensures activeTab == tab ==> IsActive(activeTab, tab)
  {
    activeTab.value == tab.value
  }

  predicate DistinctValues(items: seq<TabItem>)
  {
    forall j, k :: 0 <= j < k < |items| ==> items[j].value != items[k].value
  }

  /** With distinct values, the active tab chosen from the list highlights exactly
      its own button. */
  lemma ExactlyOneActive(items: seq<TabItem>, j: nat)
    requires DistinctValues(items) && j < |items|
    ensures (set k | 0 <= k < |items| && IsActive(items[j], items[k])) == {j}
  {
  }

  /** The style of the entry at depth `index` in the content stack. */
  datatype CardStyle = CardStyle(scale: real, top: int, zIndex: int, opacity: real)

  /** The top entry is drawn at full size and opacity, in place; no entry is
      enlarged; only a hovered stack fans out. */
  function StackStyle(index: nat, isHovering: bool): (c: CardStyle)
    ensures index == 0 ==> c == CardStyle(1.0, 0, 0, 1.0)
    ensures c.scale <= 1.0 && 0.0 <= c.opacity <= 1.0
    ensures !isHovering ==> c.top == 0
  {
    CardStyle(1.0 - index as real * 0.1,
              if isHovering then (index as int) * -50 else 0,
              -(index as int),
              if index < 3 then 1.0 - index as real * 0.1 else 0.0)
  }

  /** Deeper entries are drawn below shallower ones, are smaller, and only the top
      three are visible. */
  lemma StackStyleOrder(i: nat, j: nat, isHovering: bool)
    requires i < j
    ensures StackStyle(i, isHovering).zIndex > StackStyle(j, isHovering).zIndex
    ensures StackStyle(i, isHovering).scale > StackStyle(j, isHovering).scale
    ensures StackStyle(i, isHovering).opacity >= StackStyle(j, isHovering).opacity
    ensures StackStyle(j, isHovering).opacity > 0.0 <==> j < 3
  {
  }

  class Tabs {
    const tabItems: seq<TabItem>
    var tabs: seq<TabItem>
    var activeTab: TabItem
    var isHovering: bool

    /** The content stack is always a rearrangement of the tab list, topped by the
        active tab. */
    ghost predicate Valid()
      reads this
    {
      && |tabItems| > 0
      && |tabs| == |tabItems|
      && multiset(tabs) == multiset(tabItems)
      && activeTab == tabs[0]
    }

    constructor (items: seq<TabItem>)
      requires |items| > 0
      ensures Valid()
      ensures tabItems == items && tabs == items && activeTab == items[0] && !isHovering
    {
      tabItems := items;
      tabs := items;
      activeTab := items[0];
      isHovering := false;
    }

    /** Clicking tab `index` rebuilds the stack from the original list, whatever the
        previous stack was. */
    method HandleOnClick(index: nat)
      requires Valid() && index < |tabItems|
      modifies this`tabs, this`activeTab
      ensures Valid()
      ensures tabs == MoveToFront(tabItems, index)
      ensures activeTab == tabItems[index]
    {
      var items := tabItems;
      var updated := new TabItem[|items|](k requires 0 <= k < |items| => items[k]);
      assert updated[..] == items;
      MoveToFrontInPlace(updated, index);
      tabs := updated[..];
      activeTab := tabs[0];
      MoveToFrontPermutes(items, index);
    }

    method SetHovering(h: bool)
      requires Valid()
      modifies this`isHovering
      ensures Valid() && isHovering == h
    {
      isHovering := h;
    }
  }
}
