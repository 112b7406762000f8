/**
 * How the project and file lists are shown
 * (apps/web/lib/stores/view-preference-store.ts). Persisting the store to
 * `localStorage` is not modelled.
 */
module ViewPreferenceStore {
  datatype ViewType = Cards | List

  datatype ViewPreferences = ViewPreferences(projectsView: ViewType, filesView: ViewType)

  /** Both lists start as cards. */
  const InitialPreferences: ViewPreferences := ViewPreferences(Cards, Cards)

  function WithProjectsView(s: ViewPreferences, view: ViewType): ViewPreferences {
    s.(projectsView := view)
  }

  function WithFilesView(s: ViewPreferences, view: ViewType): ViewPreferences {
    s.(filesView := view)
  }

  class ViewPreferenceStore {
    var projectsView: ViewType
    var filesView: ViewType

    function State(): ViewPreferences
      reads this
    {
      ViewPreferences(projectsView, filesView)
    }

    constructor ()
      ensures State() == InitialPreferences
    {
      projectsView, filesView := Cards, Cards;
    }

    /** `setProjectsView(view)`. */
    method SetProjectsView(view: ViewType)
      modifies this
      ensures State() == WithProjectsView(old(State()), view)
    {
      projectsView := view;
    }

    /** `setFilesView(view)`. */
    method SetFilesView(view: ViewType)
      modifies this
      ensures State() == WithFilesView(old(State()), view)
    {
      filesView := view;
    }
  }

  /** Each setter changes its own field only, and setting a view twice is setting it once. */
  lemma SettersTouchOneField(s: ViewPreferences, view: ViewType)
    ensures WithProjectsView(s, view).projectsView == view && WithProjectsView(s, view).filesView == s.filesView
    ensures WithFilesView(s, view).filesView == view && WithFilesView(s, view).projectsView == s.projectsView
    ensures WithProjectsView(WithProjectsView(s, view), view) == WithProjectsView(s, view)
    ensures WithFilesView(WithFilesView(s, view), view) == WithFilesView(s, view)
  {
  }

  /** The two preferences are independent: setting them commutes. */
  lemma SettersCommute(s: ViewPreferences, p: ViewType, f: ViewType)
    ensures WithFilesView(WithProjectsView(s, p), f) == WithProjectsView(WithFilesView(s, f), p)
  {
  }
}
