# erp-screen-builder web app: a Dafny model of its small sequential core

This project models, in Dafny, the sequential logic of the Next.js web
application of erp-screen-builder. It covers the code that runs without a
database or a browser:

- breadcrumb resolution and the header's collapsing of long trails;
- the error helpers: the redaction of tokens and secrets, the error summaries, the truncating stringifier and the debug flag;
- name clean-up, the request validators and the react-hook-form resolver;
- the `.env` reader of the health check;
- the editor's schema defaults and its store;
- the list sorting hook;
- the team, page-context and view-preference stores, the team fallback effect and the bootstrap state;
- the team switcher's pure helpers and handlers, the file-kind mapping and the two avatar-initials helpers;
- the shared API helpers.

JavaScript values (`unknown` in the source) are one datatype, `JsValue.Value`.
An object is the list of its own enumerable properties in enumeration order.
Writing a key replaces it in place or appends it; reading takes the first
occurrence. Each store is a `class` whose fields the actions overwrite.
Every action is proved against a pure transition function on a state datatype,
and lemmas about those functions state what the store promises. Code that
loops in the source (`matchPattern`, `matchBreadcrumbConfig`,
`buildFallbackBreadcrumbs`, `redactDeep`, the summaries, `readEnvFile`,
`zodFlattenToRhfErrors`, `useSorting`) is a method with a loop, proved
against a function. `useSorting` sorts and reverses an `array` in place.

Calls the model cannot see become parameters:

- the clock (`Date.now`);
- `localeCompare` as an integer collation rank, and `Date` parsing as a timestamp function;
- NFKD decomposition;
- `new URL(...)`, `req.json()`, `auth()` and a zod schema's `safeParse`;
- the process environment;
- the team store's `hasHydrated` flag;
- the teams query's result.

## Model

Each row names a member whose contract states the property. Functions that only compute a source function's value and carry no `ensures` of their own (among them `Text.SanitizeName`, `Text.NormalizeName`, `Validators.IsUuid`, `SchemaDefaults.GetSchemaDefaults`, `ProjectKinds.TemplateToKind`, `ApiHelpers.JsonError`, `ApiHelpers.RequireSameOrigin`, `ApiHelpers.ParseBody`, `ApiHelpers.ParseQuery`, `AppBootstrap.Bootstrap`, `NavUser.GetInitials`, `UserProfile.GetInitials` and `ErrorRedact.Redact`) have no row of their own: the lemma rows citing the same source lines describe them.

| member | source | states |
|---|---|---|
| BreadcrumbsRegistry.NormalizePathname | apps/web/lib/navigation/breadcrumbs-registry.ts:110-119 | the normalised path is never empty and starts with "/" |
| BreadcrumbsRegistry.NormalizeKeepsSegments | apps/web/lib/navigation/breadcrumbs-registry.ts:110-119 | normalising never changes a path's non-empty segments, so normalising again before matching is harmless |
| BreadcrumbsRegistry.NormalizeEmpty | apps/web/lib/navigation/breadcrumbs-registry.ts:111 | the empty path normalises to "/" |
| BreadcrumbsRegistry.NormalizeNotIdempotent | apps/web/lib/navigation/breadcrumbs-registry.ts:115-117 | only one trailing slash is removed: "/projects//" needs two normalisations to become "/projects" |
| BreadcrumbsRegistry.Segments | apps/web/lib/navigation/breadcrumbs-registry.ts:172 | `split("/").filter(Boolean)` yields non-empty segments without '/' |
| BreadcrumbsRegistry.MatchPattern | apps/web/lib/navigation/breadcrumbs-registry.ts:193-217 | the loop returns parameters exactly when the segment counts agree and every literal segment matches, and then the parameters each `:name` binds |
| BreadcrumbsRegistry.MatchSegments | apps/web/lib/navigation/breadcrumbs-registry.ts:197-216 | over the segments, the loop returns parameters exactly when the counts agree and every literal segment matches, and then the parameters each `:name` binds, later bindings overriding earlier ones |
| BreadcrumbsRegistry.BindingsKeys | apps/web/lib/navigation/breadcrumbs-registry.ts:203-214 | the bound names are exactly the pattern's `:name` segments |
| BreadcrumbsRegistry.BindingsValue | apps/web/lib/navigation/breadcrumbs-registry.ts:207-210 | a `:name` segment binds the path segment at its position unless a later segment rebinds the name |
| BreadcrumbsRegistry.FirstMatchSound | apps/web/lib/navigation/breadcrumbs-registry.ts:124-129 | a match found is a registry entry whose pattern binds the parameters returned |
| BreadcrumbsRegistry.FirstMatchIsFirst | apps/web/lib/navigation/breadcrumbs-registry.ts:124-129 | the earliest matching entry is returned |
| BreadcrumbsRegistry.FirstMatchNone | apps/web/lib/navigation/breadcrumbs-registry.ts:124-131 | null exactly when no entry matches |
| BreadcrumbsRegistry.MatchBreadcrumbConfig | apps/web/lib/navigation/breadcrumbs-registry.ts:121-132 | the loop over the registry returns the first match for the normalised path |
| BreadcrumbsRegistry.ShortId | apps/web/lib/navigation/breadcrumbs-registry.ts:227-231 | values longer than 12 characters are cut to their first 8, others kept |
| BreadcrumbsRegistry.DashesToSpaces | apps/web/lib/navigation/breadcrumbs-registry.ts:223 | no '-' or '_' survives, the text does not grow, and text without them is unchanged |
| BreadcrumbsRegistry.DashesAppendAfterWord | apps/web/lib/navigation/breadcrumbs-registry.ts:223 | text ending in another character is replaced apart from whatever follows it |
| BreadcrumbsRegistry.DashesAppendBeforeWord | apps/web/lib/navigation/breadcrumbs-registry.ts:223 | text is replaced apart from what follows when that starts with another character |
| BreadcrumbsRegistry.DashesOfRun | apps/web/lib/navigation/breadcrumbs-registry.ts:223 | a run of dashes and underscores alone becomes one space |
| BreadcrumbsRegistry.DashRun | apps/web/lib/navigation/breadcrumbs-registry.ts:223 | each maximal run of dashes and underscores, of any length, becomes exactly one space, and the text on either side is replaced independently |
| BreadcrumbsRegistry.DashesOfTwoWords | apps/web/lib/navigation/breadcrumbs-registry.ts:223 | two words joined by a dash run become the words joined by one space |
| BreadcrumbsRegistry.HumanizeSegment | apps/web/lib/navigation/breadcrumbs-registry.ts:219-225 | a segment longer than 12 becomes "Item " and its first 8 characters; a non-empty shorter one is its dash-replaced text with the first character upper-cased, no longer than the segment |
| BreadcrumbsRegistry.HumanizeTwoWords | apps/web/lib/navigation/breadcrumbs-registry.ts:219-225 | a short segment of two words joined by dashes becomes the first word capitalised, a space and the second word |
| BreadcrumbsRegistry.HumanizeExample | apps/web/lib/navigation/breadcrumbs-registry.ts:219-225 | "novo-projeto" is humanized as "Novo projeto" |
| BreadcrumbsRegistry.HumanizePlainSegment | apps/web/lib/navigation/breadcrumbs-registry.ts:224 | a short segment without dashes only has its first letter capitalised |
| BreadcrumbsRegistry.ResolveFromConfig | apps/web/lib/navigation/breadcrumbs-registry.ts:148-168 | one crumb per definition with the same ids; only the last is current, and it has no href |
| BreadcrumbsRegistry.FallbackTrail | apps/web/lib/navigation/breadcrumbs-registry.ts:170-191 | home followed by one crumb per segment; home is current only when there are no segments |
| BreadcrumbsRegistry.BuildFallbackBreadcrumbs | apps/web/lib/navigation/breadcrumbs-registry.ts:170-191 | the forEach pushing onto `crumbs` builds exactly the fallback trail |
| BreadcrumbsRegistry.SegmentsOfJoined | apps/web/lib/navigation/breadcrumbs-registry.ts:181 | "/" plus segments joined by "/" splits back into those segments |
| BreadcrumbsRegistry.FallbackHrefSegments | apps/web/lib/navigation/breadcrumbs-registry.ts:181-185 | the link of fallback crumb i leads to the path of the first i+1 segments |
| BreadcrumbsRegistry.ResolveBreadcrumbs | apps/web/lib/navigation/breadcrumbs-registry.ts:134-146 | the given or found match yields the configured trail, otherwise the fallback |
| BreadcrumbsRegistry.FallbackShape | apps/web/lib/navigation/breadcrumbs-registry.ts:170-191 | the fallback trail is non-empty, only its last crumb is current, and that crumb has no link unless it is the lone home crumb |
| BreadcrumbsRegistry.RegistryCrumbsNonEmpty | apps/web/lib/navigation/breadcrumbs-registry.ts:37-108 | every registry entry has crumbs |
| BreadcrumbsRegistry.ResolvedTrailShape | apps/web/lib/navigation/breadcrumbs-registry.ts:134-191 | for every path the resolved trail is non-empty, only its last crumb is current, and the current crumb has no link except the lone home crumb |
| BreadcrumbsRegistryFacts.CountMismatch | apps/web/lib/navigation/breadcrumbs-registry.ts:197-199 | a pattern never matches a path with a different number of segments |
| BreadcrumbsRegistryFacts.SegmentsHit | apps/web/lib/navigation/breadcrumbs-registry.ts:203-216 | matching segments give the parameters bound from the path's segments |
| BreadcrumbsRegistryFacts.MatchAgrees | apps/web/lib/navigation/breadcrumbs-registry.ts:197-214 | a match has the path's segment count and agrees with it on literal segments |
| BreadcrumbsRegistryFacts.LiteralMismatch | apps/web/lib/navigation/breadcrumbs-registry.ts:211-213 | a differing literal segment rules the match out |
| BreadcrumbsRegistryFacts.PatternCount | apps/web/lib/navigation/breadcrumbs-registry.ts:37-108 | the registry's patterns have 1, 1, 2, 3 and 4 segments |
| BreadcrumbsRegistryFacts.RegistryUnambiguous | apps/web/lib/navigation/breadcrumbs-registry.ts:37-131 | once an entry matches a path no later entry does, so the order of the registry never decides the result |
| BreadcrumbsRegistryFacts.ProjectRootBinds | apps/web/lib/navigation/breadcrumbs-registry.ts:53-56 | the project-root pattern binds `projectId` to the id in `/projects/<id>` |
| BreadcrumbsRegistryFacts.ProjectPathEntries | apps/web/lib/navigation/breadcrumbs-registry.ts:37-65 | `/projects/<id>` matches neither of the first two entries and matches project-root |
| BreadcrumbsRegistryFacts.ProjectRootMatches | apps/web/lib/navigation/breadcrumbs-registry.ts:121-132 | any `/projects/<id>` path selects the project-root entry with `projectId` bound to the id |
| HeaderBreadcrumbs.CollapseIfNeeded | apps/web/components/layout/header-breadcrumbs.tsx:83-103 | up to four crumbs are kept one for one; longer trails become five items |
| HeaderBreadcrumbs.CollapseShows | apps/web/components/layout/header-breadcrumbs.tsx:83-103 | a short trail is shown whole and in order; a long one shows its first two and last two crumbs in order around the ellipsis |
| HeaderBreadcrumbs.EllipsisIffLong | apps/web/components/layout/header-breadcrumbs.tsx:83-103 | the ellipsis appears exactly when the trail has more than four crumbs |
| HeaderBreadcrumbs.CollapseKeepsEnds | apps/web/components/layout/header-breadcrumbs.tsx:91-102 | the first and last crumbs stay first and last |
| HeaderBreadcrumbs.LastItemIsCurrentPage | apps/web/components/layout/header-breadcrumbs.tsx:59-72 | on every page the header's last item is the current crumb, drawn as a page and not a link |
| ErrorDebug.ShouldShowTechnicalDetails | apps/web/lib/errors/debug.ts:3-6 | details show exactly outside production when the debug flag is exactly "true" |
| ErrorDebug.OnlyTwoVariablesMatter | apps/web/lib/errors/debug.ts:3-6 | environments that agree on NODE_ENV and NEXT_PUBLIC_ERROR_DEBUG agree on the result |
| ErrorDebug.FlagIsExact | apps/web/lib/errors/debug.ts:5 | "TRUE", "1" or an unset flag keep details hidden; "true" shows them |
| ErrorUtils.ApiErrorShape | apps/web/lib/utils.ts:10-12 | of the values modelled, only plain objects with an own `error` key are API errors |
| ErrorUtils.GetErrorMessage | apps/web/lib/utils.ts:14-19 | a falsy error gives the fallback, an Error its message, an API error its nested message when not nullish, anything else the fallback; never null or undefined |
| ErrorUtils.OtherValuesGiveFallback | apps/web/lib/utils.ts:18 | values that are neither Errors nor API errors give the fallback |
| ErrorUtils.ApiErrorMessage | apps/web/lib/utils.ts:17 | an API error carrying a message string yields that message |
| ErrorRedact.RedactDeep | apps/web/lib/errors/sanitize.ts:70-94 | the recursive method with its loop over the properties computes `Redact` |
| ErrorRedact.JwtShape | apps/web/lib/errors/sanitize.ts:34-36 | three base64url runs joined by dots look like a JWT |
| ErrorRedact.JwtParts | apps/web/lib/errors/sanitize.ts:34-36 | a JWT-looking string is its three dot-separated parts rejoined |
| ErrorRedact.BearerShape | apps/web/lib/errors/sanitize.ts:38-39 | "bearer" in any letter case followed by whitespace looks like a bearer value |
| ErrorRedact.RedactedIsNotToken | apps/web/lib/errors/sanitize.ts:72 | "[REDACTED]" is itself neither a JWT nor a bearer value |
| ErrorRedact.RedactScalar | apps/web/lib/errors/sanitize.ts:70-94 | null, undefined, booleans, numbers and non-token strings come back unchanged |
| ErrorRedact.RedactToken | apps/web/lib/errors/sanitize.ts:72 | token-shaped strings become "[REDACTED]" |
| ErrorRedact.RedactArray | apps/web/lib/errors/sanitize.ts:74 | arrays are mapped element by element |
| ErrorRedact.RedactUndefined | apps/web/lib/errors/sanitize.ts:71 | only undefined redacts to undefined |
| ErrorRedact.RedactKeys | apps/web/lib/errors/sanitize.ts:76-86 | the redacted object has exactly the original's keys |
| ErrorRedact.RedactObject | apps/web/lib/errors/sanitize.ts:76-86 | same keys in the same order; a sensitive key holds "[REDACTED]", any other the redacted value |
| ErrorRedact.RedactSanitizes | apps/web/lib/errors/sanitize.ts:70-94 | nothing returned contains a token-shaped string, a sensitive key with a value other than "[REDACTED]", repeated keys or an Error |
| ErrorRedact.SanitizedFixed | apps/web/lib/errors/sanitize.ts:70-94 | a sanitized value is returned unchanged |
| ErrorRedact.RedactIdempotent | apps/web/lib/errors/sanitize.ts:70-94 | redacting twice is redacting once |
| ErrorStringify.Truncated | apps/web/lib/errors/sanitize.ts:61-63 | a text within the cap is kept; a longer one is cut to the cap and marked; a negative cap counts from the end, as `slice` does |
| ErrorStringify.SafeStringify | apps/web/lib/errors/sanitize.ts:41-68 | a serialised text is truncated at the given cap or 12000; a failed serialisation gives the fixed message |
| ErrorStringify.TruncationBound | apps/web/lib/errors/sanitize.ts:61-63 | the output is at most the cap plus the marker's 14 characters |
| ErrorStringify.TruncationKeepsPrefix | apps/web/lib/errors/sanitize.ts:61-63 | the output starts with the text cut to the cap, and is the text or ends with the marker |
| ErrorStringify.DefaultCap | apps/web/lib/errors/sanitize.ts:41-45 | with the default cap a 13000-character text becomes 12014 characters |
| ErrorSummary.FirstTruthyProp | apps/web/lib/errors/sanitize.ts:100-102 | none is found exactly when no listed key holds a truthy value, and a found value is truthy |
| ErrorSummary.FirstTruthyAt | apps/web/lib/errors/sanitize.ts:100-102 | the value found is the one under the first key holding a truthy value |
| ErrorSummary.RequestIdOf | apps/web/lib/errors/sanitize.ts:96-112 | the request id is undefined or truthy |
| ErrorSummary.ExtractRequestId | apps/web/lib/errors/sanitize.ts:96-112 | the two loops compute `RequestIdOf` |
| ErrorSummary.RootRequestIdWins | apps/web/lib/errors/sanitize.ts:100-102 | a truthy root id wins whatever `metadata` holds |
| ErrorSummary.MetadataRequestId | apps/web/lib/errors/sanitize.ts:104-109 | an id under `metadata` is used only when no root key holds one |
| ErrorSummary.ApiCore | apps/web/lib/errors/sanitize.ts:114-117 | the core is never undefined, and is null for anything that is not an API error |
| ErrorSummary.FieldProbeAsWritten | apps/web/lib/errors/sanitize.ts:143 | as written, the `in` test throws exactly when the core is not an object |
| ErrorSummary.HasFieldAgrees | apps/web/lib/errors/sanitize.ts:143 | the guarded test agrees with the unguarded one wherever that returns, and is false on primitives |
| ErrorSummary.PrimitiveCoreThrows | apps/web/lib/errors/sanitize.ts:139-145 | `{ error: "boom" }` reaches line 143 and the `in` test throws there |
| ErrorSummary.SummaryField | apps/web/lib/errors/sanitize.ts:123-163 | a summary holds nothing outside its seven keys |
| ErrorSummary.PutOptReads | apps/web/lib/errors/sanitize.ts:141-160 | a conditional assignment changes only its own key, and only when it fires |
| ErrorSummary.SummaryRecordReads | apps/web/lib/errors/sanitize.ts:129-160 | the assembled record has distinct keys and holds under each key what `SummaryField` says |
| ErrorSummary.CopyErrorFields | apps/web/lib/errors/sanitize.ts:131-137 | the Error block writes the name, the message and the redacted cause |
| ErrorSummary.CopyApiFields | apps/web/lib/errors/sanitize.ts:139-146 | the API-core block writes the code, the message and the redacted public message |
| ErrorSummary.CopyRootFields | apps/web/lib/errors/sanitize.ts:148-157 | the root block writes the status and the fallback public message |
| ErrorSummary.SanitizeErrorForSummary | apps/web/lib/errors/sanitize.ts:123-163 | falsy gives null and a string gives `{message}`; otherwise the record holds `SummaryField` under every key, and is null exactly when no key has a value |
| ErrorSummary.SummaryRecordEmpty | apps/web/lib/errors/sanitize.ts:162 | the record is empty exactly when no key has a value |
| ErrorSummary.SummaryKeysOnly | apps/web/lib/errors/sanitize.ts:123-163 | the `error` wrapper, `details` and other keys never appear in a summary |
| ErrorSummary.SummaryRedacted | apps/web/lib/errors/sanitize.ts:136-155 | cause, public message and status are redacted |
| ErrorSummary.ErrorSummary | apps/web/lib/errors/sanitize.ts:131-137 | an Error's summary holds its name, message and redacted cause |
| ErrorSummary.PrimitiveCoreSummary | apps/web/lib/errors/sanitize.ts:139-162 | with the guard, `{ error: "boom" }` summarises to nothing |
| ErrorSummary.VerboseField | apps/web/lib/errors/sanitize.ts:169-192 | the verbose record holds nothing outside the summary keys and `details` |
| ErrorSummary.BaseRecordReads | apps/web/lib/errors/sanitize.ts:172 | the starting record holds the summary |
| ErrorSummary.CopyFieldReads | apps/web/lib/errors/sanitize.ts:185-187 | one round copies the root field, redacted, only when the root has it and the record lacks it |
| ErrorSummary.CopyAllowedReads | apps/web/lib/errors/sanitize.ts:182-188 | the loop over `cause` and `details` copies each under that rule |
| ErrorSummary.VerboseRecordReads | apps/web/lib/errors/sanitize.ts:169-192 | the verbose record has distinct keys and holds `VerboseField` under every key |
| ErrorSummary.CopyAllowedFields | apps/web/lib/errors/sanitize.ts:180-189 | the loop method computes the copy of the allowed fields |
| ErrorSummary.SanitizeErrorForVerboseDisplay | apps/web/lib/errors/sanitize.ts:169-192 | the record holds `VerboseField` under every key, never `error`, and is null exactly when no key has a value |
| ErrorSummary.VerboseRecordEmpty | apps/web/lib/errors/sanitize.ts:191 | the verbose record never has `error`, and is empty exactly when no key has a value |
| ErrorSummary.VerboseExtendsSummary | apps/web/lib/errors/sanitize.ts:172 | the verbose record agrees with the summary on every key but `cause` and `details` |
| ErrorSummary.VerboseCause | apps/web/lib/errors/sanitize.ts:184-187 | the summary's cause is kept, else the root's cause is copied redacted |
| ErrorSummary.VerboseDetailsRedacted | apps/web/lib/errors/sanitize.ts:174-187 | `details` is always redacted |
| ErrorSummary.ApiErrorSummary | apps/web/lib/errors/sanitize.ts:139-146 | an API error's summary holds its code and message |
| ErrorSummary.ApiErrorVerbose | apps/web/lib/errors/sanitize.ts:169-192 | its verbose display shows code and message but neither the `error` wrapper nor the inner `debug` field |
| Text.StripMarks | apps/web/lib/text.ts:8 | no combining mark U+0300 to U+036F survives |
| Text.CollapseIsCollapsed | apps/web/lib/text.ts:2 | after collapsing, every whitespace character is a space and no two are adjacent |
| Text.CollapseFixesCollapsed | apps/web/lib/text.ts:2 | collapsed text is left unchanged |
| Text.CollapseKeepsLetters | apps/web/lib/text.ts:2 | collapsing keeps every other character in order |
| Text.CollapseNoSpace | apps/web/lib/text.ts:2 | text without whitespace is unchanged |
| Text.CollapseOfSpaces | apps/web/lib/text.ts:2 | a whitespace run alone becomes one space |
| Text.CollapseAppendAfterWord | apps/web/lib/text.ts:2 | text ending in a non-space character collapses apart from whatever follows it |
| Text.CollapseAppendBeforeWord | apps/web/lib/text.ts:2 | text collapses apart from what follows when that starts with a non-space character |
| Text.CollapseRun | apps/web/lib/text.ts:2 | each maximal whitespace run, of any length and any whitespace characters, becomes exactly one space, and the text on either side collapses independently |
| Text.SanitizeNameEdges | apps/web/lib/text.ts:1-3 | the result neither starts nor ends with whitespace |
| Text.SanitizeNameCollapsed | apps/web/lib/text.ts:1-3 | every whitespace character left is a space and no two are adjacent |
| Text.SanitizeNameRun | apps/web/lib/text.ts:1-3 | between two words, each whitespace run becomes exactly one space |
| Text.SanitizeNameTrims | apps/web/lib/text.ts:1-3 | whitespace before and after the name is dropped, whatever the name |
| Text.SanitizeNameOfWord | apps/web/lib/text.ts:1-3 | a name without whitespace is kept as it is |
| Text.SanitizeNameTwoWords | apps/web/lib/text.ts:1-3 | two words with whitespace around and between them give the words joined by one space |
| Text.SanitizeNameExample | apps/web/lib/text.ts:1-3 | "  Novo   Projeto  " is sanitized to "Novo Projeto" |
| Text.SanitizeNameKeepsLetters | apps/web/lib/text.ts:1-3 | only whitespace is removed |
| Text.SanitizeNameEmpty | apps/web/lib/text.ts:1-3 | the result is empty exactly when the input is empty or all whitespace |
| Text.SanitizeNameIdempotent | apps/web/lib/text.ts:1-3 | sanitizing twice is sanitizing once |
| Text.NormalizeNameOfSanitized | apps/web/lib/text.ts:5-10 | `normalizeName` depends on its input only through `sanitizeName` |
| Text.NormalizeNameShape | apps/web/lib/text.ts:5-10 | a normalised name holds no combining mark U+0300 to U+036F and no upper-case letter A to Z |
| Text.NormalizeNameExample | apps/web/lib/text.ts:5-10 | "  São   João  " normalises to "sao joao" when NFKD splits each "ã" into "a" and U+0303 |
| Text.StripMarksAppend | apps/web/lib/text.ts:8 | removing the marks of a concatenation is removing them from each part |
| Text.StripMarksNone | apps/web/lib/text.ts:8 | text without combining marks is left unchanged |
| Validators.UuidIsGroups | apps/web/lib/validators.ts:3-6 | `isUuid` accepts exactly five hex groups of 8-4-4-4-12 digits with version nibble 1-5 and variant nibble 8, 9, a or b |
| Validators.UuidIgnoresCase | apps/web/lib/validators.ts:4 | strings equal after lower-casing get the same verdict |
| Validators.UuidCaseFolds | apps/web/lib/validators.ts:4 | upper- or lower-casing a string does not change the verdict |
| Validators.VersionOutOfRange | apps/web/lib/validators.ts:4 | a version nibble outside 1-5 is refused |
| Validators.TypeIssue | apps/web/lib/validators.ts:8-55 | a missing value is reported as "Required", a value of another type as an invalid type, at the field's path |
| Validators.UuidIssues | apps/web/lib/validators.ts:24-37 | a UUID field gives no issue exactly for a UUID string; otherwise one issue at that field |
| Validators.CreateTeam | apps/web/lib/validators.ts:8-14 | a team payload is accepted exactly with a name of 1 to 50 characters and a string or absent description; the accepted name is the one sent, and the description is the one sent or absent |
| Validators.TeamExample | apps/web/lib/validators.ts:8-14 | the payload name "Team A", description "ok" is accepted unchanged |
| Validators.TeamNameMissing | apps/web/lib/validators.ts:9-12 | a payload without a name gets "Required" on `name` |
| Validators.CreateProject | apps/web/lib/validators.ts:16-29 | an accepted project has the sanitized name, non-empty and at most 100 characters, and a UUID team id |
| Validators.ProjectNameNormalised | apps/web/lib/validators.ts:20 | an accepted name is trimmed, singly spaced, and keeps every other character |
| Validators.ProjectBlankName | apps/web/lib/validators.ts:21-23 | a whitespace-only name gets "Nome é obrigatório" |
| Validators.ProjectLongNameAndBadTeam | apps/web/lib/validators.ts:24-29 | an over-long name is reported even when the team id is also bad |
| Validators.PreprocessFileName | apps/web/lib/validators.ts:32-35 | strings are sanitized and an empty result becomes undefined; other values pass through |
| Validators.CreateFile | apps/web/lib/validators.ts:31-39 | an accepted file has an absent or sanitized name of at most 100 characters, a UUID project id and the "blank" template; its name is the sanitized string when the sent name is a string that does not sanitize to "", and absent otherwise |
| Validators.FileNameExample | apps/web/lib/validators.ts:31-39 | a file named "  Meu   Arquivo  " is accepted as "Meu Arquivo" |
| Validators.FileNameBlank | apps/web/lib/validators.ts:32-36 | a file named "   " is accepted with no name |
| Validators.FileNameRule | apps/web/lib/validators.ts:32-36 | absent or blank names come out undefined; other strings come out sanitized and at most 100 characters; anything else is refused |
| Validators.FileTemplateOnlyBlank | apps/web/lib/validators.ts:38 | a template other than "blank" gets "Template inválido" |
| Validators.UpdateFile | apps/web/lib/validators.ts:49-55 | an update is accepted exactly with an object schema and an integer revision of at least 1 |
| Validators.JsonObjectShape | apps/web/lib/validators.ts:41-47 | null, arrays, strings, numbers and booleans are refused as `schema_json` |
| Validators.RevisionBothChecks | apps/web/lib/validators.ts:51-54 | a fractional revision below 1 collects both the integer and the minimum issue |
| RhfZodResolver.FlattenFiles | apps/web/lib/rhf-zod-resolver.ts:42 | flattening files each message under its field in issue order, lists each field once, and lists only fields with messages |
| RhfZodResolver.FirstMessage | apps/web/lib/rhf-zod-resolver.ts:11-12 | the first message is used only when present and non-empty |
| RhfZodResolver.FlattenToRhfErrors | apps/web/lib/rhf-zod-resolver.ts:4-23 | the loop and the `root` write build exactly the field errors followed by `root` |
| RhfZodResolver.FieldErrorsReads | apps/web/lib/rhf-zod-resolver.ts:10-14 | each field holds the error of its own first message, and no other key appears |
| RhfZodResolver.RhfErrorsReads | apps/web/lib/rhf-zod-resolver.ts:16-22 | `root` holds the first form-level message when there is one, overriding a field called "root"; other keys are fields with their first message |
| RhfZodResolver.SafeResolve | apps/web/lib/rhf-zod-resolver.ts:29-45 | success gives the data and no errors; failure gives `{}` and the flattened errors; it never throws |
| RhfZodResolver.ResolveFailure | apps/web/lib/rhf-zod-resolver.ts:38-44 | after a failure a field shows the first issue filed under it, and `root` the first issue of the payload itself |
| RhfZodResolver.BlankProjectNameShown | apps/web/lib/rhf-zod-resolver.ts:29-45 | a project form with a blank name and a valid team shows "Nome é obrigatório" on `name` and nothing else |
| EnvFile.Lines | apps/web/scripts/healthcheck.ts:16 | splitting at line feeds, with a carriage return before a line feed dropped, gives lines without line feeds |
| EnvFile.ReadEnvFile | apps/web/scripts/healthcheck.ts:14-36 | the loop builds the variables the lines assign, in order |
| EnvFile.ParseEnvLine | apps/web/scripts/healthcheck.ts:17-33 | one turn of the loop yields the line's assignment, if any |
| EnvFile.LastAssignmentWins | apps/web/scripts/healthcheck.ts:33 | a repeated key keeps its last value, and each key appears once |
| EnvFile.SkippedLines | apps/web/scripts/healthcheck.ts:17-21 | blank lines, comments and lines without '=' set nothing |
| EnvFile.Assignment | apps/web/scripts/healthcheck.ts:20-33 | `k=v` sets the trimmed key to the trimmed, unquoted value; the key ends at the first '=' |
| EnvFile.UnquoteMatching | apps/web/scripts/healthcheck.ts:26-31 | exactly one pair of matching quotes is removed |
| EnvFile.UnquoteMismatched | apps/web/scripts/healthcheck.ts:26-31 | mismatched quotes are kept |
| EnvFile.UnquoteLoneQuote | apps/web/scripts/healthcheck.ts:26-31 | a lone quote character becomes the empty value |
| EnvFile.CrLfLines | apps/web/scripts/healthcheck.ts:16 | "\r\n" and "\n" both end a line |
| SchemaDefaults.DefaultsOnlyForBlank | apps/web/lib/schemaDefaults.ts:28-46 | defaults exist exactly for "blank"; any other template gives "Unsupported template: " and its name |
| SchemaDefaults.BlankDefaults | apps/web/lib/schemaDefaults.ts:29-42 | the blank schema has version "1.0.0", a ScreenRoot screen and no children |
| SchemaDefaults.BlankLayout | apps/web/lib/schemaDefaults.ts:34 | its layout is row 1, column 1, width 80, height 24 |
| SchemaDefaults.BlankProps | apps/web/lib/schemaDefaults.ts:35-39 | its routine name, description and namespace are empty |
| EditorStore.ParseTemplate | apps/web/lib/stores/editor-store.ts:76-79 | every template opens as "blank" |
| EditorStore.EditorStore.constructor | apps/web/lib/stores/editor-store.ts:26-34 | the store starts from the initial state, which is consistent |
| EditorStore.EditorStore.InitializeFromFile | apps/web/lib/stores/editor-store.ts:84-100 | the store holds the file's id, source, version, kept schema and revision, clean and initialised, and stays consistent |
| EditorStore.EditorStore.Reset | apps/web/lib/stores/editor-store.ts:102 | back to the initial state |
| EditorStore.SchemaCheckIsType | apps/web/lib/stores/editor-store.ts:40-74 | the check holds exactly for values of the `SchemaDefaults` shape |
| EditorStore.SchemaCheckSound | apps/web/lib/stores/editor-store.ts:40-74 | a value passing the check has the shape |
| EditorStore.SchemaCheckComplete | apps/web/lib/stores/editor-store.ts:40-74 | a value of the shape passes the check |
| EditorStore.SchemaCheckRejects | apps/web/lib/stores/editor-store.ts:41-47 | non-objects, a wrong version and a wrong root type fail |
| EditorStore.BlankPassesCheck | apps/web/lib/stores/editor-store.ts:40-74 | the blank defaults pass the check |
| EditorStore.SchemaForChoice | apps/web/lib/stores/editor-store.ts:86-89 | the stored schema is kept exactly when it passes, else the blank defaults; the result always passes |
| EditorStore.InitializedConsistent | apps/web/lib/stores/editor-store.ts:91-98 | loading any file leaves the state consistent, clean and initialised |
| UseSorting.Copy | apps/web/hooks/use-sorting.ts:22 | the copy is a fresh array with the same elements |
| UseSorting.SortInPlace | apps/web/hooks/use-sorting.ts:24-32 | the array ends as the stable insertion sort of its old contents |
| UseSorting.InsertAt | apps/web/hooks/use-sorting.ts:24-32 | one insertion step moves the next element into place in the sorted prefix |
| UseSorting.ReverseInPlace | apps/web/hooks/use-sorting.ts:34 | the array ends as the reverse of its old contents |
| UseSorting.UseSorting | apps/web/hooks/use-sorting.ts:21-34 | a fresh array holding the sorted items, reversed for "oldest" |
| UseSorting.InsertSorted | apps/web/hooks/use-sorting.ts:24-32 | inserting into a sorted sequence keeps it sorted |
| UseSorting.InsertAdds | apps/web/hooks/use-sorting.ts:24-32 | inserting adds exactly the element |
| UseSorting.SortSortsAndPermutes | apps/web/hooks/use-sorting.ts:24-32 | the sort's result is sorted by key and a permutation of its input |
| UseSorting.ReversedSortedDown | apps/web/hooks/use-sorting.ts:34 | reversing keeps the elements and turns ascending into descending |
| UseSorting.SortingResult | apps/web/hooks/use-sorting.ts:21-34 | the result is a permutation of the items, ascending by key for "newest", descending for "oldest", and "oldest" is "newest" reversed |
| UseSorting.NewestByDate | apps/web/hooks/use-sorting.ts:29-31 | by date, "newest" means non-increasing timestamps, a missing date counting as the epoch |
| UseSorting.AlphabeticalOrder | apps/web/hooks/use-sorting.ts:25-27 | alphabetically, "newest" ascends and "oldest" descends in collation order |
| Teams.Ids | apps/web/hooks/use-teams.ts:37 | one id per team, in order |
| Teams.FindPersonal | apps/web/hooks/use-teams.ts:38 | none exactly when no team is personal; otherwise the first personal team |
| Teams.FindById | apps/web/components/sidebar/team-switcher.tsx:117 | none exactly when the id is absent or not listed; otherwise a listed team with that id |
| TeamStore.TeamStore.constructor | apps/web/lib/stores/team-store.ts:21-23 | all three fields start as null |
| TeamStore.TeamStore.SetActiveTeamId | apps/web/lib/stores/team-store.ts:25-30 | the three fields are overwritten as `AfterSetActive` says |
| TeamStore.SetActiveStores | apps/web/lib/stores/team-store.ts:25-30 | the id is stored as given, the source defaults to "auto", the time is the clock's, and the previous state leaves no trace |
| TeamStore.LastChangeWins | apps/web/lib/stores/team-store.ts:25-30 | of two changes in a row the later decides the whole state |
| UseTeams.RunEffect | apps/web/hooks/use-teams.ts:33-48 | the effect writes the fallback id, as "auto", exactly when `EffectWrite` says, and otherwise leaves the store alone |
| UseTeams.FallbackChoice | apps/web/hooks/use-teams.ts:38-41 | the fallback is the first personal team, else the first team, and is always listed |
| UseTeams.NoWriteWithoutTeams | apps/web/hooks/use-teams.ts:34-35 | nothing is written before hydration or without teams |
| UseTeams.WritesIffNotListed | apps/web/hooks/use-teams.ts:40-47 | with teams, the effect writes exactly when the active id is unset or not listed, and writes the fallback |
| UseTeams.WrittenIdIsListed | apps/web/hooks/use-teams.ts:37-47 | every id written belongs to the fetched list |
| UseTeams.EffectSettles | apps/web/hooks/use-teams.ts:33-48 | with non-empty ids, a second run after the write writes nothing |
| AppBootstrap.ReadyExcludesLoading | apps/web/components/bootstrap/app-bootstrap-context.tsx:28-40 | ready and loading never hold together; ready means hydrated, resolved, error-free and, with teams, an active team |
| AppBootstrap.ErrorOnlyOnFailure | apps/web/components/bootstrap/app-bootstrap-context.tsx:39 | the error is the query's error on failure and null otherwise |
| AppBootstrap.EmptyListNotLoading | apps/web/components/bootstrap/app-bootstrap-context.tsx:29-34 | a hydrated store with a resolved empty list is not loading |
| AppBootstrap.EffectEndsLoading | apps/web/components/bootstrap/app-bootstrap-context.tsx:33-34 | while still loading with resolved teams, the team effect writes, and afterwards loading ends |
| PageContextStore.PageContextStore.constructor | apps/web/lib/stores/page-context-store.ts:16-17 | both fields start as null |
| PageContextStore.PageContextStore.SetProjectContext | apps/web/lib/stores/page-context-store.ts:18-22 | the keys present in the argument overwrite the state |
| PageContextStore.PageContextStore.ClearProjectContext | apps/web/lib/stores/page-context-store.ts:23 | both fields become null |
| PageContextStore.SetOverwritesPresentKeys | apps/web/lib/stores/page-context-store.ts:18-22 | a present key is overwritten, null included; an absent key is kept |
| PageContextStore.EmptyUpdateIsNoOp | apps/web/lib/stores/page-context-store.ts:18-22 | an empty argument changes nothing |
| PageContextStore.FullUpdateReplaces | apps/web/lib/stores/page-context-store.ts:18-23 | a full update forgets the old state, and setting both to null is clearing |
| PageContextStore.SetIdempotent | apps/web/lib/stores/page-context-store.ts:18-22 | setting the same context twice is setting it once |
| ViewPreferenceStore.ViewPreferenceStore.constructor | apps/web/lib/stores/view-preference-store.ts:17-18 | both lists start as cards |
| ViewPreferenceStore.ViewPreferenceStore.SetProjectsView | apps/web/lib/stores/view-preference-store.ts:20 | only the projects view changes |
| ViewPreferenceStore.ViewPreferenceStore.SetFilesView | apps/web/lib/stores/view-preference-store.ts:21 | only the files view changes |
| ViewPreferenceStore.SettersTouchOneField | apps/web/lib/stores/view-preference-store.ts:20-21 | each setter changes its own field only and is idempotent |
| ViewPreferenceStore.SettersCommute | apps/web/lib/stores/view-preference-store.ts:20-21 | the two setters commute |
| ProjectKinds.KindOfTemplate | apps/web/lib/project-kinds.ts:3-7 | frame exactly for "blank", doc for everything else, missing and empty included; never image |
| TeamSwitcher.ProjectScopedIffMatch | apps/web/components/sidebar/team-switcher.tsx:35-37 | the route test holds exactly when the path is "/projects/", a non-empty '/'-free segment, then '/' or the end |
| TeamSwitcher.SplitAfterPrefix | apps/web/components/sidebar/team-switcher.tsx:36 | after the prefix the greedy `[^/]+` ends at a '/' or the end |
| TeamSwitcher.ProjectScopedExamples | apps/web/components/sidebar/team-switcher.tsx:35-37 | "/projects" and "/projects/" are not project-scoped; project pages and their sub-pages are |
| TeamSwitcher.BadgeAgrees | apps/web/components/sidebar/team-switcher.tsx:46-54 | only a public, non-personal team gets the success badge, and the label is "Público" exactly then |
| TeamSwitcher.ActiveTeam | apps/web/components/sidebar/team-switcher.tsx:116-117 | a team is shown exactly when the list is non-empty |
| TeamSwitcher.ActiveTeamChoice | apps/web/components/sidebar/team-switcher.tsx:117 | the active team when listed, the first team otherwise |
| TeamSwitcher.HandleTeamSelect | apps/web/components/sidebar/team-switcher.tsx:119-126 | selecting the active team does nothing; another team is stored as the user's choice, and project pages navigate to "/projects" |
| TeamSwitcher.HandleTeamCreated | apps/web/components/sidebar/team-switcher.tsx:128-133 | a created team always becomes the user's choice, with the same navigation |
| TeamSwitcher.EmptyTeamsCrashAsWritten | apps/web/components/sidebar/team-switcher.tsx:135-154 | as written, an empty team list crashes the component, loading or not, and the skeleton is never reached |
| TeamSwitcher.RenderNeverCrashes | apps/web/components/sidebar/team-switcher.tsx:135-154 | with the guards first it never crashes: an empty list shows the skeleton while loading and nothing otherwise, and a non-empty list renders as written |
| NavUser.InitialsFallback | apps/web/components/sidebar/nav-user.tsx:24-25 | a missing, empty or blank name gives "U" |
| NavUser.OneWordInitial | apps/web/components/sidebar/nav-user.tsx:27-32 | a one-word name gives its upper-cased first letter |
| NavUser.TwoWordInitials | apps/web/components/sidebar/nav-user.tsx:24-32 | a name of two or more words gives the upper-cased first letters of the first two, whatever whitespace separates them |
| NavUser.ProfileFallbacks | apps/web/components/sidebar/nav-user.tsx:47-49 | a missing name shows "Usuário", and a blank avatar address counts as none |
| NavUser.InitialsOfShownName | apps/web/components/sidebar/nav-user.tsx:47-50 | the initials come from the shown name, so a missing name gives "U" |
| UserProfile.SourceChoice | apps/web/components/layout/UserProfile.tsx:27-28 | the name when non-empty, else a non-empty e-mail, else nothing and "U" |
| UserProfile.OnePieceInitial | apps/web/components/layout/UserProfile.tsx:29-30 | a source without spaces gives its upper-cased first letter |
| UserProfile.TwoPieceInitials | apps/web/components/layout/UserProfile.tsx:29-30 | "a b…" gives the upper-cased first letters of the first two pieces |
| UserProfile.SpaceOnlyGivesEmpty | apps/web/components/layout/UserProfile.tsx:27-30 | " " is a non-empty source, so it gives the empty string and not "U" |
| ApiHelpers.CodeNamesRoundTrip | apps/web/lib/api-helpers.ts:7-16 | each error code's wire string names that code back, so no two codes share a string |
| ApiHelpers.JsonErrorShape | apps/web/lib/api-helpers.ts:20-30 | the response has the status; its `error` object has the code and message, and `details` exactly when supplied |
| ApiHelpers.SessionOutcome | apps/web/lib/api-helpers.ts:34-42 | 401 UNAUTHORIZED "Authentication required" exactly without a session; otherwise the session |
| ApiHelpers.SameOriginOutcome | apps/web/lib/api-helpers.ts:52-73 | no or empty Origin passes; otherwise passes exactly when equal to the URL's origin; a mismatch is 403 naming both origins, an unparsable URL 403 without details |
| ApiHelpers.BodyOutcome | apps/web/lib/api-helpers.ts:77-99 | invalid JSON gives 400 "Invalid JSON body"; a schema failure gives 400 "Invalid request body" with the issues; otherwise the data; every failure is VALIDATION_ERROR |
| ApiHelpers.QueryOutcome | apps/web/lib/api-helpers.ts:101-124 | an unparsable URL gives 400 "Invalid query params" without details; a schema failure the same message with the issues; otherwise the data |
| ApiHelpers.QueryObjectDistinct | apps/web/lib/api-helpers.ts:107 | each parameter name appears once, and distinct names come through verbatim and in order |
| ApiHelpers.QueryObjectEntries | apps/web/lib/api-helpers.ts:107 | every property is one of the parameters, as given |
| ApiHelpers.QueryObjectKeys | apps/web/lib/api-helpers.ts:107 | the object's keys are exactly the parameter names |

## Left out

- Route handlers, Prisma and the database: the projects, files and teams routes, and the revision compare-and-increment update of a file.
- React rendering: components are reduced to the values they compute. The team switcher's render is reduced to which outcome it reaches.
- Data-fetching hooks and timers, the react-query client, and the `formatRelative` and `cn` helpers: they are network, timer, floating-point and library code.
- `JSON.stringify` and its WeakSet circular-reference detection in `safeStringify`: serialisation is a parameter. Only the truncation and the failure message are modelled.
- Unicode: NFKD decomposition is a parameter, and case mapping covers ASCII letters only.
- String length and indexing: a model string is a sequence of Unicode code points, while JavaScript's `length`, `slice` and `charAt` count UTF-16 code units. The two agree on text in the Basic Multilingual Plane and differ on characters beyond it, such as emoji, which JavaScript counts twice. The model therefore counts such characters once in:
  - the name limits `.max(50)` and `.max(100)` (apps/web/lib/validators.ts:12, apps/web/lib/validators.ts:26 and apps/web/lib/validators.ts:36). For example, a team name of 26 emoji has JavaScript length 52 and is refused there, but the model accepts it;
  - `shortId`'s `length > 12` test and `slice(0, 8)` (apps/web/lib/navigation/breadcrumbs-registry.ts:229). JavaScript can also cut a surrogate pair in half there;
  - the truncation cap of `safeStringify` (apps/web/lib/errors/sanitize.ts:61-62);
  - the first characters taken for initials, `charAt(0)` and `p[0]` (apps/web/components/layout/UserProfile.tsx:30 and apps/web/components/sidebar/nav-user.tsx:30). JavaScript takes a lone high surrogate there, while the model takes the whole character.
- Numbers: `Num` holds a real, so NaN, the infinities and -0 are not represented. NaN is falsy in JavaScript: `getErrorMessage(NaN, fallback)` returns the fallback (apps/web/lib/utils.ts:15), and a NaN request id is skipped by `extractRequestId` (apps/web/lib/errors/sanitize.ts:100-102).
- Error instances: `ErrorObj` carries only an error's name, message and cause. The sanitizers read `status`, `publicMessage`, the request-id keys and `error` from any object (apps/web/lib/errors/sanitize.ts:148-160, apps/web/lib/utils.ts:11), so an `Error` carrying such properties of its own is not modelled. The application throws plain `Error`s or parsed JSON bodies, which the model covers.
- `localeCompare("pt-BR")` is an integer collation rank, and `Date` parsing is a function from text to a timestamp. Invalid dates (NaN) are not modelled.
- UseSorting.UseSorting: stability is built into the insertion sort but is not stated as a lemma. The comparator is assumed to be consistent with a key.
- Store plumbing: zustand's `persist` and `localStorage`. The clock is a parameter.
- `hasHydrated` is read from the team store by `useTeams` and the bootstrap provider but is not declared in apps/web/lib/stores/team-store.ts. It is a parameter here.
- JavaScript objects: integer-like keys, which JavaScript enumerates first, and the `__proto__` key are not modelled.
- PageContextStore.PageContextStore.SetProjectContext: a key present in the argument with the value `undefined` is treated like `null`.
- FileDetail fields the editor store does not read: `updated_by`, `updated_at` and `origin`.
- The validators follow zod 3's issue collection. The wording of zod's own built-in messages is not modelled beyond "Required" and an invalid-type issue.
- `uuidSchema` in apps/web/lib/api-helpers.ts:126-128: zod's built-in UUID pattern differs between zod versions and is not part of this model.
- The filesystem, the pg connection and `process.exit` in the health check. `readEnvFile` is modelled from the file's contents.
- OpenAPI documentation, auth and session code, seeds and configuration.

## Findings

| source | as written | input that shows it | evidently intended | confidence | as-written member | corrected member |
|---|---|---|---|---|---|---|
| apps/web/lib/errors/sanitize.ts:143 | `"publicMessage" in apiErr` runs on any truthy `error` field, and `in` throws a TypeError when that field is a primitive | `sanitizeErrorForSummary({ error: "boom" })` | a summary of the other fields: here `null` | high, not executed | ErrorSummary.PrimitiveCoreThrows | ErrorSummary.PrimitiveCoreSummary |
| apps/web/components/sidebar/team-switcher.tsx:135 | `badgeLabelForTeam(activeTeam)` reads `team.type` before the guards at lines 138 and 154 check that `activeTeam` exists | an empty team list (`teamsQuery.data` undefined while loading, or resolved to `[]`) | the loading skeleton, or nothing | high, not executed | TeamSwitcher.EmptyTeamsCrashAsWritten | TeamSwitcher.RenderNeverCrashes |

The second row's input is reachable: a resolved empty list is not loading
(`AppBootstrap.EmptyListNotLoading`), so the shell layout
(apps/web/app/(app)/(shell)/layout.tsx) renders the sidebar and, with it, the
team switcher.
