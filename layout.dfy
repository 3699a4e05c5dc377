/** The navigation bar's active-item rule (frontend/src/components/Layout.tsx): an item is active
    when the current path is its href or lies below it. A missing pathname (null or undefined) is
    `None`. */
module Layout {
  import opened Common

  /** The hrefs of the five navigation items, in display order. */
  const NavHrefs: seq<string> := ["/dashboard", "/meals", "/workouts", "/progress", "/profile"]

  /** `pathname === href || pathname?.startsWith(href + '/')`. */
  predicate IsActive(pathname: Option<string>, href: string)
  {
    pathname == Some(href) || (pathname.Some? && href + "/" <= pathname.value)
  }

  /** The rule in positional terms: `href` is a prefix of the path and the path either ends there
      or continues with a slash. No path is active without a pathname. */
  lemma IsActiveIff(pathname: Option<string>, href: string)
    ensures IsActive(pathname, href) <==>
      pathname.Some? && href <= pathname.value
      && (|pathname.value| == |href| || pathname.value[|href|] == '/')
  {
    if pathname.Some? {
      var p := pathname.value;
      if href + "/" <= p {
        assert (href + "/")[|href|] == '/';
        assert href == (href + "/")[..|href|];
      }
      if href <= p && |p| > |href| && p[|href|] == '/' {
        assert href + "/" == p[..|href| + 1];
      }
      if href <= p && |p| == |href| {
        assert p == href;
      }
    }
  }

  /** A path that extends `href` with anything but a slash (`/mealsx` under `/meals`) does not make
      it active, nor does a path equal to the href without its last character. */
  lemma BarePrefixNotActive(href: string, rest: string)
    requires rest != [] && rest[0] != '/'
    ensures !IsActive(Some(href + rest), href)
    ensures IsActive(Some(href), href) && IsActive(Some(href + "/" + rest), href)
    ensures href != [] ==> !IsActive(Some(href[..|href| - 1]), href)
  {
    IsActiveIff(Some(href + rest), href);
    assert (href + rest)[|href|] == rest[0];
    assert href + "/" <= href + "/" + rest;
  }

  lemma NullNeverActive(href: string)
    ensures !IsActive(None, href)
  {
  }

  /** No href of the bar is the start of another followed by a slash. */
  predicate NoNestedHrefs(hrefs: seq<string>)
  {
    forall i, j :: 0 <= i < |hrefs| && 0 <= j < |hrefs| && i != j ==>
      hrefs[i] != hrefs[j] && !(hrefs[i] + "/" <= hrefs[j])
      && !(hrefs[i] <= hrefs[j] && |hrefs[i]| < |hrefs[j]| && hrefs[j][|hrefs[i]|] == '/')
  }

  /** Two hrefs that are both active for one path are equal or one lies below the other. */
  lemma {:induction false} BothActiveNested(p: string, a: string, b: string)
    requires IsActive(Some(p), a) && IsActive(Some(p), b) && |a| <= |b|
    ensures a == b || (a <= b && |a| < |b| && b[|a|] == '/')
  {
    IsActiveIff(Some(p), a);
    IsActiveIff(Some(p), b);
    assert a == p[..|a|] && b == p[..|b|];
    if |a| < |b| {
      assert b[..|a|] == a;
      assert b[|a|] == p[|a|];
    }
  }

  /** For any path at most one item of the bar is active. */
  lemma AtMostOneActive(p: Option<string>, i: nat, j: nat)
    requires i < |NavHrefs| && j < |NavHrefs|
    requires IsActive(p, NavHrefs[i]) && IsActive(p, NavHrefs[j])
    ensures i == j
  {
    NavHrefsNotNested();
    if i != j {
      if |NavHrefs[i]| <= |NavHrefs[j]| {
        BothActiveNested(p.value, NavHrefs[i], NavHrefs[j]);
      } else {
        BothActiveNested(p.value, NavHrefs[j], NavHrefs[i]);
      }
    }
  }

  lemma NavHrefsNotNested()
    ensures NoNestedHrefs(NavHrefs)
  {
  }
}
