/** The fixed header's scroll-spy navigation: the active section id, the mini
    (single-pill) mode, the menu-link lookup, click navigation, and the
    IntersectionObserver callback that follows the scroll. The document is given
    as the set of element ids it holds. */
module Header {
  import opened Text

  datatype MenuLink = MenuLink(name: string, ref: string)

  const MenuLinks: seq<MenuLink> := [
    MenuLink("Home", "home"),
    MenuLink("Skills", "skills"),
    MenuLink("Projects", "projects"),
    MenuLink("Work", "work"),
    MenuLink("Contact", "contact")
  ]

  const Home: string := "home"
  const NoName: string := "\U{2014}"

  predicate IsRef(r: string)
  {
    exists k :: 0 <= k < |MenuLinks| && MenuLinks[k].ref == r
  }

  /** The menu-link refs are distinct. */
  lemma RefsDistinct()
    ensures forall j, k :: 0 <= j < k < |MenuLinks| ==> MenuLinks[j].ref != MenuLinks[k].ref
  {
  }

  /** Mini mode: away from the home section and not hovered. Hovering the
      navigation always shows the full menu, and so does the home section. */
  predicate IsMini(active: string, hovering: bool)
    ensures hovering || active == Home ==> !IsMini(active, hovering)
  {
    active != Home && !hovering
  }

  /** `MENULINKS.find(m => m.ref === active)`. */
  function ActiveItem(active: string): (item: Option<MenuLink>)
    ensures item.Some? <==> IsRef(active)
    ensures item.Some? ==> item.value in MenuLinks && item.value.ref == active
  {
    match Find(MenuLinks, (m: MenuLink) => m.ref == active)
    case Some(k) => Some(MenuLinks[k])
    case None => None
  }

  /** The text of the mini pill: `activeItem?.name || "—"`. */
  function MiniLabel(active: string): (shown: string)
    ensures IsRef(active) ==> shown == ActiveItem(active).value.name || shown == NoName
    ensures !IsRef(active) ==> shown == NoName
  {
    match ActiveItem(active)
    case Some(m) => if m.name != "" then m.name else NoName
    case None => NoName
  }

  /** Every menu link has a name, so an active ref shows its own link's name. */
  lemma MiniLabelOfRef(k: nat)
    requires k < |MenuLinks|
    ensures MiniLabel(MenuLinks[k].ref) == MenuLinks[k].name
  {
    RefsDistinct();
    var item := ActiveItem(MenuLinks[k].ref);
    assert item.value == MenuLinks[k];
  }

  /** In full mode, link `k` is drawn active when its ref is the active id. */
  predicate Marked(active: string, k: nat)
    requires k < |MenuLinks|
    ensures Marked(active, k) ==> IsRef(active)
  {
    active == MenuLinks[k].ref
  }

  /** Exactly the links whose ref is the active id are marked: one when it is a
      ref, none otherwise. */
  lemma MarkedLinks(active: string)
    ensures IsRef(active) ==> exists k :: 0 <= k < |MenuLinks| && (set j | 0 <= j < |MenuLinks| && Marked(active, j)) == {k}
    ensures !IsRef(active) ==> (set j | 0 <= j < |MenuLinks| && Marked(active, j)) == {}
  {
    RefsDistinct();
    if IsRef(active) {
      var k :| 0 <= k < |MenuLinks| && MenuLinks[k].ref == active;
      assert (set j | 0 <= j < |MenuLinks| && Marked(active, j)) == {k};
    }
  }

  /** One record handed to the observer callback. */
  datatype ObserverEntry = ObserverEntry(targetId: string, isIntersecting: bool)

  /** The observer callback's `forEach`, as a left fold: every intersecting entry
      sets the active id, so a later one overrides an earlier one. */
  function Observe(active: string, entries: seq<ObserverEntry>): (r: string)
    ensures IsRef(active) && (forall j :: 0 <= j < |entries| ==> IsRef(entries[j].targetId)) ==> IsRef(r)
    decreases |entries|
  {
    if |entries| == 0 then active
    else
      var before := Observe(active, entries[..|entries| - 1]);
      var last := entries[|entries| - 1];
      if last.isIntersecting then last.targetId else before
  }

  /** With no intersecting entry the active id is unchanged. */
  lemma {:induction false} ObserveNone(active: string, entries: seq<ObserverEntry>)
    requires forall j :: 0 <= j < |entries| ==> !entries[j].isIntersecting
    ensures Observe(active, entries) == active
    decreases |entries|
  {
    if |entries| > 0 {
      ObserveNone(active, entries[..|entries| - 1]);
    }
  }

  /** The last intersecting entry decides the active id. */
  lemma {:induction false} ObserveLastWins(active: string, entries: seq<ObserverEntry>, k: nat)
    requires k < |entries| && entries[k].isIntersecting
    requires forall j :: k < j < |entries| ==> !entries[j].isIntersecting
    ensures Observe(active, entries) == entries[k].targetId
    decreases |entries|
  {
    if k < |entries| - 1 {
      var init := entries[..|entries| - 1];
      assert init[k] == entries[k];
      ObserveLastWins(active, init, k);
    }
  }

  /** The active id after the callback is the old one or one of the entries'. */
  lemma {:induction false} ObserveFrom(active: string, entries: seq<ObserverEntry>)
    ensures Observe(active, entries) == active
            || exists j :: 0 <= j < |entries| && Observe(active, entries) == entries[j].targetId
    decreases |entries|
  {
    if |entries| > 0 {
      var init := entries[..|entries| - 1];
      ObserveFrom(active, init);
      if Observe(active, entries) != active && !entries[|entries| - 1].isIntersecting {
        var j :| 0 <= j < |init| && Observe(active, init) == init[j].targetId;
        assert init[j] == entries[j];
      }
    }
  }

  class Header {
    var active: string
    var hovering: bool

    /** The active id is always the ref of a menu link: the handlers only receive
        menu-link refs and the ids of the sections found by those refs. */
    ghost predicate Valid()
      reads this
    {
      IsRef(active)
    }

    constructor ()
      ensures Valid() && active == Home && !hovering
    {
      active := Home;
      hovering := false;
      assert MenuLinks[0].ref == Home;
    }

    predicate Mini()
      reads this
      ensures hovering || active == Home ==> !Mini()
    {
      IsMini(active, hovering)
    }

    method SetHovering(h: bool)
      requires Valid()
      modifies this`hovering
      ensures Valid() && hovering == h
    {
      hovering := h;
    }

    /** A click on a link: the section becomes active only when an element with
        that id exists in the document. */
    method OnNavClick(ref: string, documentIds: set<string>)
      requires Valid() && IsRef(ref)
      modifies this`active
      ensures Valid()
      ensures ref in documentIds ==> active == ref
      ensures ref !in documentIds ==> active == old(active)
    {
      if ref in documentIds {
        active := ref;
      }
    }

    /** The observer callback: the entries are visited in order. */
    method OnObserve(entries: seq<ObserverEntry>)
      requires Valid()
      requires forall j :: 0 <= j < |entries| ==> IsRef(entries[j].targetId)
      modifies this`active
      ensures Valid()
      ensures active == Observe(old(active), entries)
    {
      var i := 0;
      while i < |entries|
        invariant 0 <= i <= |entries|
        invariant active == Observe(old(active), entries[..i])
        invariant Valid()
      {
        if entries[i].isIntersecting {
          active := entries[i].targetId;
        }
        assert entries[..i + 1][..i] == entries[..i];
        i := i + 1;
      }
      assert entries[..i] == entries;
    }
  }
}
