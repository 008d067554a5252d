/**
  The site's navigation bar (src/components/Navigation.tsx): which link is
  highlighted for the current location, the classes and `aria-current`
  attribute each link gets, and when a click is taken over by the client-side
  router instead of the browser.

  The router's `navigate` and `location` are inputs: the current path is a
  parameter, and a handled click is reported as the path it navigates to.
*/
module Navigation {
  import opened Wrappers

  /** `s.endsWith(suffix)`. */
  predicate EndsWith(s: string, suffix: string) {
    |suffix| <= |s| && s[|s| - |suffix|..] == suffix
  }

  /** Anything followed by `suffix` ends with it. */
  lemma EndsWithAppend(prefix: string, suffix: string)
    ensures EndsWith(prefix + suffix, suffix)
  {
    assert (prefix + suffix)[|prefix|..] == suffix;
  }

  /** A string that ends with `suffix` is some prefix followed by `suffix`. */
  lemma EndsWithSplit(s: string, suffix: string)
    requires EndsWith(s, suffix)
    ensures s == s[..|s| - |suffix|] + suffix
  {
  }

  /** The `isActive` closure: is the link to `path` the current page at `pathname`? */
  predicate IsActive(pathname: string, path: string)
    ensures pathname == path ==> IsActive(pathname, path)
    ensures path != "/" && IsActive(pathname, path) ==> EndsWith(pathname, path)
  {
    if path == "/" then pathname == "/" || pathname == ""
    else pathname == path || EndsWith(pathname, path)
  }

  /** The home link is active exactly at "/" and at the empty path. */
  lemma IsActiveRoot(pathname: string)
    ensures IsActive(pathname, "/") <==> pathname == "/" || pathname == ""
  {
  }

  /**
    Any other link is active exactly when the current path ends with it, so
    it is active at its own path and below any base path.
  */
  lemma {:induction false} IsActiveOther(pathname: string, path: string, base: string)
    requires path != "/"
    ensures IsActive(pathname, path) <==> EndsWith(pathname, path)
    ensures IsActive(path, path)
    ensures IsActive(base + path, path)
    ensures IsActive(pathname, path) ==> pathname == pathname[..|pathname| - |path|] + path
  {
    EndsWithAppend([], path);
    assert [] + path == path;
    EndsWithAppend(base, path);
    if IsActive(pathname, path) {
      if pathname == path {
        assert EndsWith(pathname, path);
      }
      EndsWithSplit(pathname, path);
    }
  }

  /** The class of an active ordinary link. */
  const ActiveLinkClass := "text-primary font-semibold"
  /** The default class of an inactive ordinary link. */
  const DefaultLinkClass := "hover:text-gray-300 transition-colors"
  /** The Contact button's classes, active and inactive. */
  const ContactActiveClass := "px-6 py-2 bg-primary text-primary-foreground rounded-lg font-semibold"
  const ContactInactiveClass := "px-6 py-2 bg-white text-black rounded-lg hover:shadow-lg transition-all"
  const LogoClass := "flex items-center gap-3"

  /** `linkClass(path, base)`: the active class when the link is active, `base` otherwise. */
  function LinkClass(pathname: string, path: string, base: string): (c: string)
    ensures IsActive(pathname, path) ==> c == ActiveLinkClass
    ensures !IsActive(pathname, path) ==> c == base
  {
    if IsActive(pathname, path) then ActiveLinkClass else base
  }

  /** The parts of a mouse event the click handler reads. */
  datatype MouseEvent = MouseEvent(button: int, metaKey: bool, ctrlKey: bool, shiftKey: bool, altKey: bool)

  /** What the handler did: whether it called `preventDefault`, and where it navigated, if anywhere. */
  datatype ClickEffect = ClickEffect(preventDefault: bool, navigatedTo: Option<string>)

  /** `e.button === 0` with no modifier key held: exactly one event qualifies. */
  predicate IsPlainLeftClick(e: MouseEvent)
    ensures IsPlainLeftClick(e) <==> e == MouseEvent(0, false, false, false, false)
  {
    e.button == 0 && !e.metaKey && !e.ctrlKey && !e.shiftKey && !e.altKey
  }

  /**
    `safeNavigate(e, navigate, to)`: a plain left click is taken over (the
    default is prevented and the router goes to `to`); any other click is
    left to the browser, with neither effect.
  */
  function SafeNavigate(e: MouseEvent, to: string): (r: ClickEffect)
    ensures r.preventDefault <==> IsPlainLeftClick(e)
    ensures r.navigatedTo == (if IsPlainLeftClick(e) then Some(to) else None)
  {
    if IsPlainLeftClick(e) then ClickEffect(true, Some(to)) else ClickEffect(false, None)
  }

  /** Middle clicks and modified clicks (open in a new tab, and so on) are never taken over. */
  lemma BrowserKeepsModifiedClicks(e: MouseEvent, to: string)
    requires e.button != 0 || e.metaKey || e.ctrlKey || e.shiftKey || e.altKey
    ensures SafeNavigate(e, to) == ClickEffect(false, None)
  {
  }

  /** One anchor of the bar: its text (the logo anchor holds only an image), where it points, where its click handler navigates, its class and `aria-current`. */
  datatype Anchor = Anchor(text: string, href: string, clickTarget: string, className: string, ariaCurrent: Option<string>)

  /** An ordinary link: `linkClass` for the class and "page" for `aria-current` when active. */
  function NavAnchor(pathname: string, text: string, path: string): (a: Anchor)
    ensures a.text == text && a.href == path && a.clickTarget == a.href
    ensures a.ariaCurrent == Some("page") <==> IsActive(pathname, path)
    ensures a.ariaCurrent.Some? ==> a.ariaCurrent == Some("page")
    ensures a.className == ActiveLinkClass <==> IsActive(pathname, path)
  {
    Anchor(text, path, path, LinkClass(pathname, path, DefaultLinkClass),
           if IsActive(pathname, path) then Some("page") else None)
  }

  /** The five anchors the bar renders at `pathname`: the logo, Home, Research, AI Solutions and Contact. */
  function NavigationBar(pathname: string): (bar: seq<Anchor>)
    ensures |bar| == 5
  {
    [ Anchor("", "/", "/", LogoClass, None),
      NavAnchor(pathname, "Home", "/"),
      NavAnchor(pathname, "Research", "/research"),
      NavAnchor(pathname, "AI Solutions", "/ai-solutions"),
      Anchor("Contact", "/contact", "/contact",
             if IsActive(pathname, "/contact") then ContactActiveClass else ContactInactiveClass,
             if IsActive(pathname, "/contact") then Some("page") else None) ]
  }

  /**
    Every anchor's click handler navigates to its own href; the four page
    links carry `aria-current="page"` exactly when their path is active, and
    their class is chosen by the same predicate; the logo never carries it.
  */
  lemma NavigationBarConsistent(pathname: string, e: MouseEvent)
    ensures var bar := NavigationBar(pathname);
      && (forall k :: 0 <= k < |bar| ==> bar[k].clickTarget == bar[k].href)
      && (forall k :: 0 <= k < |bar| && IsPlainLeftClick(e) ==>
            SafeNavigate(e, bar[k].clickTarget).navigatedTo == Some(bar[k].href))
      && bar[0].ariaCurrent == None
      && (forall k :: 1 <= k < |bar| ==>
            (bar[k].ariaCurrent == Some("page") <==> IsActive(pathname, bar[k].href)) &&
            (bar[k].ariaCurrent.Some? ==> bar[k].ariaCurrent == Some("page")))
      && (forall k :: 1 <= k < 4 ==>
            (bar[k].className == ActiveLinkClass <==> IsActive(pathname, bar[k].href)))
      && (bar[4].className == ContactActiveClass <==> IsActive(pathname, "/contact"))
  {
    var bar := NavigationBar(pathname);
    assert bar[1] == NavAnchor(pathname, "Home", "/");
    assert bar[2] == NavAnchor(pathname, "Research", "/research");
    assert bar[3] == NavAnchor(pathname, "AI Solutions", "/ai-solutions");
  }

  /** A string that ends with a non-empty suffix ends with the suffix's last character. */
  lemma EndsWithLast(s: string, suffix: string)
    requires EndsWith(s, suffix) && suffix != []
    ensures s[|s| - 1] == suffix[|suffix| - 1]
  {
    assert s[|s| - |suffix|..][|suffix| - 1] == s[|s| - 1];
  }

  /**
    Whatever the current path, at most one of the four page links is
    active, so at most one anchor carries `aria-current`: the home link is
    active only at paths too short to end with another link's path, and the
    other three paths end in different characters.
  */
  lemma AtMostOneActive(pathname: string)
    ensures var bar := NavigationBar(pathname);
      forall k, l :: 1 <= k < l < |bar| && IsActive(pathname, bar[k].href) ==> !IsActive(pathname, bar[l].href)
  {
    var research, solutions, contact := "/research", "/ai-solutions", "/contact";
    assert research[|research| - 1] == 'h';
    assert solutions[|solutions| - 1] == 's';
    assert contact[|contact| - 1] == 't';
    if IsActive(pathname, research) {
      EndsWithLast(pathname, research);
    }
    if IsActive(pathname, solutions) {
      EndsWithLast(pathname, solutions);
    }
    if IsActive(pathname, contact) {
      EndsWithLast(pathname, contact);
    }
    var bar := NavigationBar(pathname);
    assert bar[1].href == "/" && bar[2].href == research && bar[3].href == solutions && bar[4].href == contact;
  }
}
