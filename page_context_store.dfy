/**
 * The page-context store (apps/web/lib/stores/page-context-store.ts): the
 * project the current page shows, for the header and sidebar.
 */
module PageContextStore {
  import opened Wrappers

  datatype PageContext = PageContext(projectId: Option<string>, projectName: Option<string>)

  /** A key of the `ctx` argument: absent, or present with a value (`null` included). */
  datatype Update = Absent | Present(value: Option<string>)

  /** The argument of `setProjectContext`. */
  datatype ContextUpdate = ContextUpdate(projectId: Update, projectName: Update)

  const InitialContext: PageContext := PageContext(None, None)

  /** `{...state, ...ctx}` for one field. */
  function Merge(current: Option<string>, u: Update): Option<string> {
    match u
    case Absent => current
    case Present(v) => v
  }

  /** The state after `setProjectContext(ctx)`. */
  function AfterSet(s: PageContext, ctx: ContextUpdate): PageContext {
    PageContext(Merge(s.projectId, ctx.projectId), Merge(s.projectName, ctx.projectName))
  }

  class PageContextStore {
    var projectId: Option<string>
    var projectName: Option<string>

    function State(): PageContext
      reads this
    {
      PageContext(projectId, projectName)
    }

    constructor ()
      ensures State() == InitialContext
    {
      projectId, projectName := None, None;
    }

    /** `setProjectContext(ctx)`: overwrites the keys present in `ctx`. */
    method SetProjectContext(ctx: ContextUpdate)
      modifies this
      ensures State() == AfterSet(old(State()), ctx)
    {
      if ctx.projectId.Present? {
        projectId := ctx.projectId.value;
      }
      if ctx.projectName.Present? {
        projectName := ctx.projectName.value;
      }
    }

    /** `clearProjectContext()`. */
    method ClearProjectContext()
      modifies this
      ensures State() == InitialContext
    {
      projectId, projectName := None, None;
    }
  }

  /** Exactly the keys present are overwritten, with their values; the others keep theirs. */
  lemma SetOverwritesPresentKeys(s: PageContext, ctx: ContextUpdate)
    ensures ctx.projectId.Present? ==> AfterSet(s, ctx).projectId == ctx.projectId.value
    ensures ctx.projectId.Absent? ==> AfterSet(s, ctx).projectId == s.projectId
    ensures ctx.projectName.Present? ==> AfterSet(s, ctx).projectName == ctx.projectName.value
    ensures ctx.projectName.Absent? ==> AfterSet(s, ctx).projectName == s.projectName
  {
  }

  /** `setProjectContext({})` changes nothing. */
  lemma EmptyUpdateIsNoOp(s: PageContext)
    ensures AfterSet(s, ContextUpdate(Absent, Absent)) == s
  {
  }

  /** Setting both keys forgets the previous context, and clearing is setting both to `null`. */
  lemma FullUpdateReplaces(s: PageContext, t: PageContext, id: Option<string>, name: Option<string>)
    ensures AfterSet(s, ContextUpdate(Present(id), Present(name))) == AfterSet(t, ContextUpdate(Present(id), Present(name)))
    ensures AfterSet(s, ContextUpdate(Present(None), Present(None))) == InitialContext
  {
  }

  /** Applying the same update twice is applying it once. */
  lemma SetIdempotent(s: PageContext, ctx: ContextUpdate)
    ensures AfterSet(AfterSet(s, ctx), ctx) == AfterSet(s, ctx)
  {
  }
}
