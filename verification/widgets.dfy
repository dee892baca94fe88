/** The settings widget record shared by the section organiser, the popover
    resolvers and the component state. */
module Widgets {
  import opened JsValues

  /** A configuration widget. `hasRenderer` stands for the `widget` render
      function being present; an absent `section` is the string "undefined",
      as it becomes when used as an object key. */
  datatype Widget = Widget(
    id: string,
    section: string,
    hidden: bool,
    props: Props,
    title: Option<string>,
    hasRenderer: bool)

  /** A widget that may be placed in a section: it renders and is not hidden. */
  predicate Shown(w: Widget)
  {
    w.hasRenderer && !w.hidden
  }
}
