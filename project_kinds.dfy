/**
 * The icon kind of a file (apps/web/lib/project-kinds.ts, `templateToKind`).
 */
module ProjectKinds {
  import opened Wrappers

  datatype FileKind = Image | Doc | Frame

  /** `templateToKind(template)`, where `None` stands for both `null` and `undefined`. */
  function TemplateToKind(template: Option<string>): FileKind {
    if template.None? || template.value == "" then Doc
    else if template.value == "blank" then Frame
    else Doc
  }

  /** Only the blank template is a frame; everything else, missing and empty included, is a document; nothing is an image. */
  lemma KindOfTemplate(template: Option<string>)
    ensures TemplateToKind(template) == Frame <==> template == Some("blank")
    ensures TemplateToKind(template) == Doc <==> template != Some("blank")
    ensures TemplateToKind(template) != Image
  {
  }
}
