/**
 * The header's display of a breadcrumb trail
 * (apps/web/components/layout/header-breadcrumbs.tsx): long trails are
 * collapsed to their first two and last two crumbs around an ellipsis, and
 * each crumb is drawn as a link or as the current page.
 */
module HeaderBreadcrumbs {
  import opened Wrappers
  import opened BreadcrumbsRegistry

  const MaxCrumbsWithoutCollapse: nat := 4

  /** `RenderableCrumb`: a crumb tagged "crumb", or the "ellipsis" marker. */
  datatype RenderableCrumb = Crumb(crumb: ResolvedBreadcrumb) | Ellipsis(id: string)

  /** `collapseIfNeeded`. */
  function CollapseIfNeeded(crumbs: seq<ResolvedBreadcrumb>): (r: seq<RenderableCrumb>)
    ensures |crumbs| <= MaxCrumbsWithoutCollapse ==> |r| == |crumbs|
    ensures |crumbs| > MaxCrumbsWithoutCollapse ==> |r| == 5
  {
    if |crumbs| <= MaxCrumbsWithoutCollapse then
      seq(|crumbs|, i requires 0 <= i < |crumbs| => Crumb(crumbs[i]))
    else
      var n := |crumbs|;
      [Crumb(crumbs[0]), Crumb(crumbs[1]), Ellipsis("ellipsis"), Crumb(crumbs[n - 2]), Crumb(crumbs[n - 1])]
  }

  /** The crumbs of a display, in order, without the ellipsis. */
  function Shown(items: seq<RenderableCrumb>): (r: seq<ResolvedBreadcrumb>)
    ensures |r| <= |items|
  {
    if items == [] then []
    else (if items[0].Crumb? then [items[0].crumb] else []) + Shown(items[1..])
  }

  predicate HasEllipsis(items: seq<RenderableCrumb>) {
    exists i | 0 <= i < |items| :: items[i].Ellipsis?
  }

  lemma {:induction false} ShownAllCrumbs(crumbs: seq<ResolvedBreadcrumb>)
    ensures Shown(seq(|crumbs|, i requires 0 <= i < |crumbs| => Crumb(crumbs[i]))) == crumbs
  {
    if crumbs != [] {
      var items := seq(|crumbs|, i requires 0 <= i < |crumbs| => Crumb(crumbs[i]));
      ShownAllCrumbs(crumbs[1..]);
      assert items[1..] == seq(|crumbs[1..]|, i requires 0 <= i < |crumbs[1..]| => Crumb(crumbs[1..][i]));
    }
  }

  /**
   * A short trail is shown whole and in order, with no ellipsis; a long one
   * shows its first two and last two crumbs, in order, around one ellipsis.
   */
  lemma CollapseShows(crumbs: seq<ResolvedBreadcrumb>)
    ensures var r := CollapseIfNeeded(crumbs);
      (|crumbs| <= MaxCrumbsWithoutCollapse ==> Shown(r) == crumbs) &&
      (|crumbs| > MaxCrumbsWithoutCollapse ==> Shown(r) == crumbs[..2] + crumbs[|crumbs| - 2..] && r[2] == Ellipsis("ellipsis"))
  {
    var r := CollapseIfNeeded(crumbs);
    if |crumbs| <= MaxCrumbsWithoutCollapse {
      ShownAllCrumbs(crumbs);
    } else {
      var n := |crumbs|;
      var tail := [Crumb(crumbs[n - 2]), Crumb(crumbs[n - 1])];
      assert tail[1..] == [Crumb(crumbs[n - 1])];
      assert Shown(tail) == [crumbs[n - 2], crumbs[n - 1]];
      var middle := [Ellipsis("ellipsis")] + tail;
      assert middle[1..] == tail;
      assert r == [Crumb(crumbs[0]), Crumb(crumbs[1])] + middle;
      assert r[1..] == [Crumb(crumbs[1])] + middle && r[1..][1..] == middle;
      assert Shown(middle) == Shown(tail);
      assert Shown(r[1..]) == [crumbs[1]] + Shown(middle);
      assert Shown(r) == [crumbs[0]] + Shown(r[1..]);
      assert crumbs[..2] + crumbs[n - 2..] == [crumbs[0], crumbs[1], crumbs[n - 2], crumbs[n - 1]];
    }
  }

  /** The ellipsis appears exactly when the trail is longer than four crumbs. */
  lemma EllipsisIffLong(crumbs: seq<ResolvedBreadcrumb>)
    ensures HasEllipsis(CollapseIfNeeded(crumbs)) <==> |crumbs| > MaxCrumbsWithoutCollapse
  {
    var r := CollapseIfNeeded(crumbs);
    if |crumbs| > MaxCrumbsWithoutCollapse {
      assert r[2].Ellipsis?;
    }
  }

  /** The first and last crumbs of a non-empty trail stay first and last on display. */
  lemma CollapseKeepsEnds(crumbs: seq<ResolvedBreadcrumb>)
    requires crumbs != []
    ensures var r := CollapseIfNeeded(crumbs);
      r[0] == Crumb(crumbs[0]) && r[|r| - 1] == Crumb(crumbs[|crumbs| - 1])
  {
  }

  /** Line 59: a crumb is drawn as a link when it has a non-empty href and is not current. */
  predicate IsLink(crumb: ResolvedBreadcrumb) {
    crumb.href.Some? && crumb.href.value != "" && !crumb.isCurrent
  }

  /**
   * On every page the header's last item is the current crumb and is drawn as
   * a page rather than a link, whether or not the trail was collapsed.
   */
  lemma LastItemIsCurrentPage(pathname: string, labels: Option<Labels>)
    ensures var r := CollapseIfNeeded(Resolve(pathname, labels, None));
      r != [] && r[|r| - 1].Crumb? && r[|r| - 1].crumb.isCurrent && !IsLink(r[|r| - 1].crumb)
  {
    var trail := Resolve(pathname, labels, None);
    ResolvedTrailShape(pathname, labels);
    CollapseKeepsEnds(trail);
  }
}
