/**
 * Facts about the concrete breadcrumb registry: which entry a path selects
 * and what it binds.
 */
module BreadcrumbsRegistryFacts {
  import opened Wrappers
  import opened JsString
  import opened BreadcrumbsRegistry

  /** A pattern never matches a path with a different number of segments. */
  lemma CountMismatch(pattern: string, pathname: string)
    requires |Segments(pattern)| != |Segments(pathname)|
    ensures PatternParams(pattern, pathname).None?
  {
    NormalizeKeepsSegments(pattern);
    NormalizeKeepsSegments(pathname);
  }

  /** A pattern whose segments match binds its parameters from the path's segments. */
  lemma SegmentsHit(pattern: string, pathname: string)
    requires SegmentsMatch(Segments(pattern), Segments(pathname))
    ensures PatternParams(pattern, pathname) ==
      Some(Bindings(Segments(pattern), Segments(pathname), |Segments(pattern)|))
  {
    NormalizeKeepsSegments(pattern);
    NormalizeKeepsSegments(pathname);
  }

  lemma ProjectPathSegments(id: string)
    requires id != "" && '/' !in id
    ensures Segments("/projects/" + id) == ["projects", id]
  {
    assert "/projects/" + id == "/" + Join(["projects", id], '/');
    SegmentsOfJoined(["projects", id]);
  }

  lemma Slashed(a: string, b: string)
    requires |b| == |a| + 1 && b[0] == '/' && b[1..] == a
    ensures b == "/" + a
  {
  }

  lemma DashboardPatternSegments()
    ensures Segments(Registry[0].pattern) == ["dashboard"]
  {
    var b := Registry[0].pattern;
    assert b == "/dashboard";
    assert b[1..] == "dashboard";
    Slashed("dashboard", b);
    SegmentsOfJoined(["dashboard"]);
  }

  lemma ProjectsPatternSegments()
    ensures Segments(Registry[1].pattern) == ["projects"]
  {
    var b := Registry[1].pattern;
    assert b == "/projects";
    assert b[1..] == "projects";
    Slashed("projects", b);
    SegmentsOfJoined(["projects"]);
  }

  lemma ProjectRootJoin()
    ensures Join(["projects", ":projectId"], '/') == "projects/:projectId"
  {
  }

  lemma ProjectRootPatternSegments()
    ensures Segments(Registry[2].pattern) == ["projects", ":projectId"]
  {
    var parts := ["projects", ":projectId"];
    var a := "projects/:projectId";
    ProjectRootJoin();
    var b := Registry[2].pattern;
    assert b == "/projects/:projectId";
    assert b[1..] == a;
    Slashed(a, b);
    SegmentsOfJoined(parts);
  }

  lemma ProjectFilesJoin()
    ensures Join(["projects", ":projectId", "files"], '/') == "projects/:projectId/files"
  {
    var parts := ["projects", ":projectId", "files"];
    assert Join(parts[1..], '/') == ":projectId/files";
  }

  lemma ProjectFilesPatternSegments()
    ensures Segments(Registry[3].pattern) == ["projects", ":projectId", "files"]
  {
    var parts := ["projects", ":projectId", "files"];
    var a := "projects/:projectId/files";
    ProjectFilesJoin();
    var b := Registry[3].pattern;
    assert b == "/projects/:projectId/files";
    assert b[1..] == a;
    Slashed(a, b);
    SegmentsOfJoined(parts);
  }

  lemma FileDetailJoin()
    ensures Join(["projects", ":projectId", "files", ":fileId"], '/') == "projects/:projectId/files/:fileId"
  {
    var parts := ["projects", ":projectId", "files", ":fileId"];
    assert Join(parts[2..], '/') == "files/:fileId";
    assert Join(parts[1..], '/') == ":projectId/files/:fileId";
  }

  lemma FileDetailPatternSegments()
    ensures Segments(Registry[4].pattern) == ["projects", ":projectId", "files", ":fileId"]
  {
    var parts := ["projects", ":projectId", "files", ":fileId"];
    FileDetailPattern();
    FileDetailJoin();
    FileDetailParts();
    SegmentsOfJoined(parts);
  }

  lemma FileDetailPattern()
    ensures Registry[4].pattern == "/" + "projects/:projectId/files/:fileId"
  {
    var a := "projects/:projectId/files/:fileId";
    var b := Registry[4].pattern;
    assert b == "/projects/:projectId/files/:fileId";
    assert b[1..] == a;
    Slashed(a, b);
  }

  lemma FileDetailParts()
    ensures var parts := ["projects", ":projectId", "files", ":fileId"];
      forall k | 0 <= k < |parts| :: parts[k] != "" && '/' !in parts[k]
  {
    var parts := ["projects", ":projectId", "files", ":fileId"];
    assert '/' !in parts[0] && '/' !in parts[1] && '/' !in parts[2] && '/' !in parts[3];
  }

  /** A pattern that matches has the path's segment count and agrees with it on literal segments. */
  lemma MatchAgrees(pattern: string, pathname: string)
    requires PatternParams(pattern, pathname).Some?
    ensures SegmentsMatch(Segments(pattern), Segments(pathname))
  {
    NormalizeKeepsSegments(pattern);
    NormalizeKeepsSegments(pathname);
  }

  /** A pattern does not match a path whose segment at a literal position differs. */
  lemma LiteralMismatch(pattern: string, pathname: string, k: nat)
    requires k < |Segments(pattern)| && k < |Segments(pathname)|
    requires !IsParam(Segments(pattern)[k]) && Segments(pattern)[k] != Segments(pathname)[k]
    ensures PatternParams(pattern, pathname).None?
  {
    NormalizeKeepsSegments(pattern);
    NormalizeKeepsSegments(pathname);
  }

  /** The registry's patterns have 1, 1, 2, 3 and 4 segments. */
  lemma PatternCount(k: nat)
    requires k < |Registry|
    ensures |Segments(Registry[k].pattern)| == if k == 0 then 1 else k
  {
    if k == 0 { DashboardPatternSegments(); }
    else if k == 1 { ProjectsPatternSegments(); }
    else if k == 2 { ProjectRootPatternSegments(); }
    else if k == 3 { ProjectFilesPatternSegments(); }
    else { FileDetailPatternSegments(); }
  }

  /** Once an entry matches a path, no later entry does: the order of the entries never decides the result. */
  lemma RegistryUnambiguous(pathname: string, i: nat, j: nat)
    requires i < j < |Registry|
    requires PatternParams(Registry[i].pattern, pathname).Some?
    ensures PatternParams(Registry[j].pattern, pathname).None?
  {
    MatchAgrees(Registry[i].pattern, pathname);
    PatternCount(i);
    PatternCount(j);
    if i == 0 && j == 1 {
      DashboardPatternSegments();
      ProjectsPatternSegments();
      var dashboard, projects := "dashboard", "projects";
      assert dashboard[..1][0] == 'd' && projects[..1][0] == 'p';
      assert !IsParam(dashboard) && !IsParam(projects);
      assert Segments(pathname)[0] == dashboard;
      LiteralMismatch(Registry[1].pattern, pathname, 0);
    } else {
      CountMismatch(Registry[j].pattern, pathname);
    }
  }

  lemma ProjectRootBinds(pattern: string, pathname: string, id: string)
    requires Segments(pattern) == ["projects", ":projectId"]
    requires Segments(pathname) == ["projects", id]
    ensures PatternParams(pattern, pathname) == Some(map["projectId" := id])
  {
    var patternParts := ["projects", ":projectId"];
    var pathParts := ["projects", id];
    assert patternParts[0][..1][0] == 'p';
    assert !IsParam(patternParts[0]);
    assert IsParam(patternParts[1]) && patternParts[1][1..] == "projectId";
    SegmentsHit(pattern, pathname);
    assert Bindings(patternParts, pathParts, 1) == map[];
  }

  lemma ProjectPathEntries(id: string)
    requires id != "" && '/' !in id
    ensures PatternParams(Registry[0].pattern, "/projects/" + id).None?
    ensures PatternParams(Registry[1].pattern, "/projects/" + id).None?
    ensures PatternParams(Registry[2].pattern, "/projects/" + id) == Some(map["projectId" := id])
  {
    var path := "/projects/" + id;
    ProjectPathSegments(id);
    DashboardPatternSegments();
    CountMismatch(Registry[0].pattern, path);
    ProjectsPatternSegments();
    CountMismatch(Registry[1].pattern, path);
    ProjectRootPatternSegments();
    ProjectRootBinds(Registry[2].pattern, path, id);
  }

  /** Any `/projects/<id>` path selects the project-root entry and binds `projectId` to the id. */
  lemma ProjectRootMatches(id: string)
    requires id != "" && '/' !in id
    ensures var r := FirstMatch(Registry, "/projects/" + id);
      r.Some? && r.value.config.id == "project-root" && r.value.params == map["projectId" := id]
  {
    var path := "/projects/" + id;
    ProjectPathEntries(id);
    forall j | 0 <= j < 2 ensures PatternParams(Registry[j].pattern, path).None? {
      assert j == 0 || j == 1;
    }
    FirstMatchIsFirst(Registry, path, 2);
  }
}
