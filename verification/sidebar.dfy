/** The sidebar's route highlighting, as tests on the current path. */
module Sidebar {
  import opened Common

  predicate StartsWith(s: string, prefix: string) {
    |prefix| <= |s| && s[..|prefix|] == prefix
  }

  predicate IsHome(path: string) {
    path == "/"
  }

  /** The projects section: the list page or any path under it. */
  predicate IsProjects(path: string) {
    path == "/projects" || StartsWith(path, "/projects/")
  }

  /** The "All projects" link's highlight. */
  predicate AllProjectsHighlighted(path: string) {
    IsProjects(path) && path == "/projects"
  }

  /** A project's entry is active on that project's page. */
  predicate ProjectItemActive(path: string, projectId: string) {
    path == "/projects/" + projectId
  }

  /** The projects section is "/projects" followed by nothing or by a
      slash: a path such as "/projectsX" is not in it. */
  lemma ProjectsSectionShape(path: string)
    ensures IsProjects(path) <==>
              |path| >= 9 && path[..9] == "/projects" && (|path| == 9 || path[9] == '/')
    ensures !IsProjects("/projectsX")
  {
    if |path| >= 9 && path[..9] == "/projects" && |path| > 9 && path[9] == '/' {
      assert path[..10] == path[..9] + [path[9]];
    }
    if StartsWith(path, "/projects/") {
      assert path[..9] == path[..10][..9];
    }
    assert "/projectsX"[9] == 'X';
  }

  /** Home and the projects section are never highlighted together, and
      "All projects" is highlighted on the list page alone. */
  lemma HighlightsAreExclusive(path: string)
    ensures !(IsHome(path) && IsProjects(path))
    ensures AllProjectsHighlighted(path) <==> path == "/projects"
    ensures AllProjectsHighlighted(path) ==> !IsHome(path)
  {
  }

  /** An active project entry lies in the projects section, the "All
      projects" link is then not highlighted, and no two projects with
      different ids are active together. */
  lemma {:induction false} ActiveItemIsUnique(path: string, a: string, b: string)
    ensures ProjectItemActive(path, a) ==> IsProjects(path) && !AllProjectsHighlighted(path) && !IsHome(path)
    ensures ProjectItemActive(path, a) && ProjectItemActive(path, b) ==> a == b
  {
    if ProjectItemActive(path, a) {
      assert path[..10] == "/projects/";
      assert |path| >= 10;
    }
    PrefixInjective("/projects/", a, b);
  }
}
