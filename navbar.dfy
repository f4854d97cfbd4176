/**
 * The navigation bar: which of its items is highlighted for the current
 * path. An item is active on its own path and, except for the dashboard,
 * on every path that begins with its own.
 */
module Navbar {
  import opened Text

  datatype NavItem = NavItem(name: string, href: string)

  const NavItems: seq<NavItem> := [
    NavItem("Dashboard", "/"),
    NavItem("Flashcards", "/flashcards"),
    NavItem("Concepts", "/concepts"),
    NavItem("Quizzes", "/quiz"),
    NavItem("Documents", "/document-analysis"),
    NavItem("Chat", "/chat")
  ]

  /** `isActive` for one item. */
  predicate IsActive(pathname: string, href: string) {
    pathname == href || (href != "/" && StartsWith(pathname, href))
  }

  /** The items highlighted for a path, in bar order. */
  function ActiveItems(pathname: string): (r: seq<NavItem>)
    ensures forall item :: item in r <==> item in NavItems && IsActive(pathname, item.href)
  {
    ActiveAmong(NavItems, pathname)
  }

  function ActiveAmong(items: seq<NavItem>, pathname: string): (r: seq<NavItem>)
    ensures forall item :: item in r <==> item in items && IsActive(pathname, item.href)
  {
    if items == [] then []
    else (if IsActive(pathname, items[0].href) then [items[0]] else []) + ActiveAmong(items[1..], pathname)
  }

  /** The dashboard item is active on "/" and nowhere else. */
  lemma RootActiveIff(pathname: string)
    ensures IsActive(pathname, "/") <==> pathname == "/"
  {
  }

  /** Every item is active on its own path. */
  lemma ExactActive(href: string)
    ensures IsActive(href, href)
  {
  }

  /** A non-root item is active exactly on its path followed by anything. */
  lemma ActiveIffExtends(pathname: string, href: string)
    requires href != "/"
    ensures IsActive(pathname, href) <==> exists rest :: pathname == href + rest
  {
    if IsActive(pathname, href) {
      assert pathname == href + pathname[|href|..];
    }
  }

  /** A path that differs from `href` at some position inside both does not start with it. */
  lemma NotPrefix(s: string, href: string, k: int)
    requires 0 <= k < |href| && k < |s| && s[k] != href[k]
    ensures !StartsWith(s, href)
  {
  }

  /** A deck page keeps the flashcards item highlighted. */
  lemma NestedPathActive()
    ensures forall k :: 0 <= k < |NavItems| ==> (IsActive("/flashcards/x", NavItems[k].href) <==> k == 1)
  {
    assert "/flashcards" <= "/flashcards/x";
    forall k | 0 <= k < |NavItems| && k != 1
      ensures !IsActive("/flashcards/x", NavItems[k].href)
    {
      if k == 0 {
        AtMostOneActive("/flashcards/x", 0, 1);
      } else {
        AtMostOneActive("/flashcards/x", 1, k);
      }
    }
  }

  /** Matching is by characters, not path segments: "/quizzes" highlights the "/quiz" item and no other. */
  lemma QuizzesActivatesQuiz()
    ensures forall k :: 0 <= k < |NavItems| ==> (IsActive("/quizzes", NavItems[k].href) <==> k == 3)
  {
    assert "/quiz" <= "/quizzes";
    forall k | 0 <= k < |NavItems| && k != 3
      ensures !IsActive("/quizzes", NavItems[k].href)
    {
      if k < 3 {
        AtMostOneActive("/quizzes", k, 3);
      } else {
        AtMostOneActive("/quizzes", 3, k);
      }
    }
  }

  /** On the home page only the dashboard is highlighted. */
  lemma RootOnlyDashboard()
    ensures ActiveItems("/") == [NavItems[0]]
  {
  }

  /** Two prefixes of the same path are prefixes of one another. */
  lemma PrefixesComparable(p: string, a: string, b: string)
    requires a <= p && b <= p
    ensures a <= b || b <= a
  {
    if |a| <= |b| {
      assert a == p[..|a|] == b[..|a|];
    } else {
      assert b == p[..|b|] == a[..|b|];
    }
  }

  /** No non-root item's path starts another's. */
  lemma HrefsIndependent(i: int, j: int)
    requires 1 <= i < j < |NavItems|
    ensures !StartsWith(NavItems[i].href, NavItems[j].href) && !StartsWith(NavItems[j].href, NavItems[i].href)
  {
    var a, b := NavItems[i].href, NavItems[j].href;
    if a[1] != b[1] {
      NotPrefix(a, b, 1);
      NotPrefix(b, a, 1);
    } else {
      NotPrefix(a, b, 2);
      NotPrefix(b, a, 2);
    }
  }

  /** No two items are ever highlighted together, whatever the path. */
  lemma AtMostOneActive(pathname: string, i: int, j: int)
    requires 0 <= i < j < |NavItems|
    ensures !(IsActive(pathname, NavItems[i].href) && IsActive(pathname, NavItems[j].href))
  {
    var a, b := NavItems[i].href, NavItems[j].href;
    if i == 0 {
      assert |b| > 1;
    } else {
      HrefsIndependent(i, j);
      if IsActive(pathname, a) && IsActive(pathname, b) {
        PrefixesComparable(pathname, a, b);
        assert false;
      }
    }
  }
}
