/** The `ChartSettings` component: its selection state (the active tab, the
    widget shown in a popover and the popover's anchor, the preview's
    warnings), the handlers that change it, and what one render derives from
    it and from the props. */
module ChartSettingsComponent {
  import opened JsValues
  import opened Widgets
  import opened SectionOrganiser
  import opened PopoverResolvers
  import opened SettingsOps

  /** A stand-in for the DOM element a popover is anchored to. */
  datatype Anchor = Anchor(token: nat)

  /** The `initial` prop: a tab to open and, optionally, a widget. */
  datatype Initial = Initial(section: string, widget: Option<Widget>)

  /** `(initial && initial.section) || null`: an empty name is falsy. */
  function InitialSection(initial: Option<Initial>): (r: Option<string>)
    ensures r.Some? <==> initial.Some? && initial.value.section != ""
    ensures r.Some? ==> r.value == initial.value.section
  {
    if initial.Some? && initial.value.section != "" then Some(initial.value.section) else None
  }

  /** `(initial && initial.widget) || null`. */
  function InitialWidget(initial: Option<Initial>): Option<Widget>
  {
    if initial.Some? then initial.value.widget else None
  }

  /** `[styleWidget, formattingWidget].filter(w => !!w)`. */
  function PresentWidgets(a: Option<Widget>, b: Option<Widget>): (r: seq<Widget>)
    ensures |r| == (if a.Some? then 1 else 0) + (if b.Some? then 1 else 0)
    ensures forall w :: w in r <==> a == Some(w) || b == Some(w)
    ensures a.Some? ==> r[0] == a.value
  {
    (if a.Some? then [a.value] else []) + (if b.Some? then [b.value] else [])
  }

  /** What one render shows: the tab names in display order, the active tab,
      its widgets, whether the tab picker and the reset button appear, and
      the widgets handed to the popover. */
  datatype View = View(
    sectionNames: seq<string>,
    activeSection: Option<string>,
    visibleWidgets: seq<Widget>,
    showSectionPicker: bool,
    resetOffered: bool,
    popoverWidgets: seq<Widget>)

  class ChartSettings {
    /** The `initial` prop as last seen. */
    var initial: Option<Initial>
    var currentSection: Option<string>
    var currentWidget: Option<Widget>
    var popoverRef: Option<Anchor>
    var warnings: Option<seq<string>>

    /** The selection starts from `initial`; no popover, no warnings. */
    constructor(initial: Option<Initial>)
      ensures this.initial == initial
      ensures currentSection == InitialSection(initial) && currentWidget == InitialWidget(initial)
      ensures popoverRef.None? && warnings.None?
    {
      this.initial := initial;
      currentSection := InitialSection(initial);
      currentWidget := InitialWidget(initial);
      popoverRef := None;
      warnings := None;
    }

    /** `componentDidUpdate`: an `initial` prop that differs from the
        previous one resets the tab and the widget to it, even while a
        popover is open; an equal one changes nothing. */
    method ReceiveInitial(next: Option<Initial>)
      modifies this`initial, this`currentSection, this`currentWidget
      ensures initial == next
      ensures next != old(initial) ==>
                currentSection == InitialSection(next) && currentWidget == InitialWidget(next)
      ensures next == old(initial) ==>
                currentSection == old(currentSection) && currentWidget == old(currentWidget)
    {
      if next != initial {
        currentSection := InitialSection(next);
        currentWidget := InitialWidget(next);
      }
      initial := next;
    }

    /** `handleShowSection`: open a tab and drop any popover widget. */
    method ShowSection(section: string)
      modifies this`currentSection, this`currentWidget
      ensures currentSection == Some(section) && currentWidget.None?
    {
      currentSection := Some(section);
      currentWidget := None;
    }

    /** `handleShowWidget`: show `widget` in a popover anchored at `ref`;
        the active tab stays as it is. */
    method ShowWidget(widget: Widget, ref: Option<Anchor>)
      modifies this`currentWidget, this`popoverRef
      ensures currentWidget == Some(widget) && popoverRef == ref
    {
      popoverRef := ref;
      currentWidget := Some(widget);
    }

    /** `handleEndShowWidget`: close the popover and go back to the tab
        that was shown. */
    method EndShowWidget()
      modifies this`currentWidget, this`popoverRef
      ensures currentWidget.None? && popoverRef.None?
      ensures currentSection == old(currentSection)
    {
      currentWidget := None;
      popoverRef := None;
    }

    /** `onUpdateWarnings`: the preview's warnings are kept as given. */
    method UpdateWarnings(ws: seq<string>)
      modifies this`warnings
      ensures warnings == Some(ws)
    {
      warnings := Some(ws);
    }

    /** `render`, without the markup. `widgets` is `_getWidgets()`, and
        `series`, `computed`, `columnKey` and `seriesKey` are what the
        visualization library supplies. */
    method Render(widgets: seq<Widget>, propSettings: Option<Props>, cardSettings: Option<Props>,
                  series: seq<SingleSeries>, computed: Props,
                  columnKey: Value -> string, seriesKey: SingleSeries -> string)
      returns (view: View)
      ensures view.sectionNames == SortSectionNames(Organise(widgets).order)
      ensures multiset(view.sectionNames) == multiset(Organise(widgets).order)
      ensures view.activeSection == ActiveSection(currentSection, Organise(widgets))
      ensures view.activeSection.Some? <==> |view.sectionNames| > 0
      ensures view.activeSection.Some? ==> view.activeSection.value in view.sectionNames
      ensures view.visibleWidgets == VisibleWidgets(Organise(widgets), view.activeSection)
      ensures forall w :: w in view.visibleWidgets ==> Shown(w)
      ensures view.showSectionPicker <==> |view.sectionNames| > 1
      ensures view.resetOffered == ResetOffered(EffectiveSettings(propSettings, cardSettings))
      ensures view.popoverWidgets
           == PresentWidgets(StyleWidget(currentWidget, widgets, series, computed, columnKey, seriesKey),
                             FormattingWidget(currentWidget, widgets))
      ensures currentWidget.None? ==> view.popoverWidgets == []
    {
      var settings := EffectiveSettings(propSettings, cardSettings);
      var sections, sectionNames := OrganiseSections(widgets);
      var active := ActiveSection(currentSection, sections);
      if active.Some? {
        assert active.value in multiset(sections.order);
      }
      var visible := VisibleWidgets(sections, active);
      forall w | w in visible
        ensures Shown(w)
      {
        OrganisedWidgetsShown(widgets, active.value, w);
      }
      var popover := PresentWidgets(StyleWidget(currentWidget, widgets, series, computed, columnKey, seriesKey),
                                    FormattingWidget(currentWidget, widgets));
      view := View(sectionNames, active, visible, ShowSectionPicker(sectionNames, visible),
                   ResetOffered(settings), popover);
    }
  }

  /** Opening a popover and closing it again leaves no popover behind and
      the tab that was shown before. */
  method ShowWidgetThenEnd(component: ChartSettings, widget: Widget, ref: Option<Anchor>)
    modifies component
    ensures component.currentWidget.None? && component.popoverRef.None?
    ensures component.currentSection == old(component.currentSection)
    ensures component.initial == old(component.initial) && component.warnings == old(component.warnings)
  {
    component.ShowWidget(widget, ref);
    component.EndShowWidget();
  }
}
