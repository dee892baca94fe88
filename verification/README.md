# Chart settings editor: section organiser, selection state and popover resolvers

This project models the logic inside Metabase's chart settings panel
(`ChartSettings.tsx`). The panel shows a chart's configuration widgets in tabs
("sections"), previews the chart, and lets the user commit or discard changes.
Stripped of its markup, the panel does the following:

- **Section organiser** (`SectionOrganiser`, with the stable sort in
  `StableSort`). A loop over the widget list builds an insertion-ordered map
  from section name to the widgets that have a renderer and are not hidden.
  The widgets of the pseudo-section `"undefined"` are moved to the front of
  the first real tab. The tab names are then sorted so that `data`, `display`
  and `axes` (in any case) come first and the rest keep their insertion
  order. Finally the active tab is chosen: the stored one, else `"Data"`,
  else the first sorted name.
- **Section picker and reset guard.** The picker shows exactly when there is
  more than one tab. "Reset to defaults" is offered unless the settings are
  `{}` or carry a `virtual_card`.
- **Selection state machine** (`ChartSettingsComponent.ChartSettings`). It
  holds the active tab, the widget shown in a popover, the popover's anchor
  and the preview's warnings. It has the handlers that change these and the
  reset that happens when the `initial` prop changes. `Render` is what one
  render derives from this state and the props.
- **Transient settings wrapper** (`TransientSettings.TransientSettingState`).
  It keeps a local copy of the settings. The copy is replaced only when the
  owner passes a different settings object.
- **Popover resolvers** (`PopoverResolvers`). The style widget is the
  `series_settings` widget focused on one series. The formatting widget is
  the requested catalog widget with the click's props laid over it. Both
  yield "no widget" as a normal outcome.
- **Reset merge** (`SettingsOps`). `handleResetSettings` hands the owner the
  card's original settings overridden key by key by the click-behaviour
  settings.

JavaScript values are the datatype `JsValues.Value`. Objects are
`map<string, Value>`, and object spread is a right-biased map union
(`JsValues.Overlay`). The library functions `getColumnKey`,
`keyForSingleSeries` and `getClickBehaviorSettings` are function parameters.
The widget list, the transformed series and the computed settings are value
parameters.

Behaviour of the code worth knowing:

- Tab names after `data`, `display` and `axes` keep their insertion order.
  They are not sorted alphabetically. `SortSectionNamesExample` shows this
  on `["Axes", "Data", "Display", "Custom"]`.
- Two names that are equal up to case get the same sort key. So a later name
  moves up next to an earlier name with the same lower case
  (`SortSectionNamesRestInOrder` holds when no two names outside data,
  display and axes are equal up to case).
- The clause "hide the section picker if the only widget is
  `column_settings`" (lines 445-451) can never hold. It inspects the same
  list that `currentSectionHasColumnSettings` is computed from (lines
  402-409). `ShowSectionPicker` therefore proves that the picker shows
  exactly when there is more than one tab.
- `handleShowSection` clears the popover widget but not `popoverRef`. The
  anchor is cleared only by `handleEndShowWidget`. The model keeps this.

## Model

| member | source | states |
|---|---|---|
| `JsValues.Overlay` | frontend/src/metabase/visualizations/components/ChartSettings.tsx:180-183 | Object spread: the result has the keys of both objects; on a shared key the right-hand value wins, elsewhere the left-hand value is kept |
| `JsValues.FindIndex` | frontend/src/metabase/visualizations/components/ChartSettings.tsx:278-279 | `find`: a found position satisfies the predicate and no earlier element does; "not found" means no element does |
| `JsValues.IndexOf` | frontend/src/metabase/visualizations/components/ChartSettings.tsx:390-392 | `indexOf`: the first position of the element, or -1 exactly when it is absent |
| `SectionOrganiser.SectionNames` | frontend/src/metabase/visualizations/components/ChartSettings.tsx:364-369 | The section keys are pairwise distinct, and a name is a key exactly when some shown widget has that section |
| `SectionOrganiser.Members` | frontend/src/metabase/visualizations/components/ChartSettings.tsx:366-368 | A section's list, the input's widgets that have a renderer, are not hidden and belong to that section; `MembersCount` states their multiplicity and `MembersAppend` their order |
| `SectionOrganiser.Grouped` | frontend/src/metabase/visualizations/components/ChartSettings.tsx:361-370 | The map built by the loop is well formed (its key order lists each key once) and has no empty list |
| `SectionOrganiser.MembersCount` | frontend/src/metabase/visualizations/components/ChartSettings.tsx:364-369 | A section's list holds a widget as many times as the input does if the widget has a renderer, is not hidden and belongs to that section; otherwise it holds it zero times |
| `SectionOrganiser.MembersAppend` | frontend/src/metabase/visualizations/components/ChartSettings.tsx:364-369 | A section's list keeps input order: the list for a concatenated input is the list for the first part followed by the list for the second |
| `SectionOrganiser.GroupedStep` | frontend/src/metabase/visualizations/components/ChartSettings.tsx:366-369 | One iteration: a shown widget is appended to its section's list, which is created as the last key when missing; any other widget changes nothing |
| `SectionOrganiser.BuildSections` | frontend/src/metabase/visualizations/components/ChartSettings.tsx:361-370 | The loop that fills `sections` computes exactly `Grouped` of the widget list |
| `SectionOrganiser.Without` | frontend/src/metabase/visualizations/components/ChartSettings.tsx:375 | Deleting a key: the result is the other names in their original order (a filter of the key order), distinct names stay distinct, and the length drops by one when the key was present |
| `SectionOrganiser.FoldUndefined` | frontend/src/metabase/visualizations/components/ChartSettings.tsx:372-377 | With "undefined" beside another key: no "undefined" key remains, the first remaining list is the undefined widgets followed by its own, and every other list is unchanged. Otherwise the map is unchanged |
| `SectionOrganiser.Organise` | frontend/src/metabase/visualizations/components/ChartSettings.tsx:361-377 | The organised section map is well formed |
| `SectionOrganiser.OrganisedPlacement` | frontend/src/metabase/visualizations/components/ChartSettings.tsx:364-377 | Each tab's list is that section's shown widgets in input order; the first tab's list is preceded by the "undefined" widgets when they were folded |
| `SectionOrganiser.OrganisedCount` | frontend/src/metabase/visualizations/components/ChartSettings.tsx:364-377 | Partition: a widget occurs in a tab exactly as often as in the input when it is shown and belongs there (its own section, or the first tab for a folded "undefined" widget), and zero times elsewhere |
| `SectionOrganiser.OrganisedWidgetsShown` | frontend/src/metabase/visualizations/components/ChartSettings.tsx:366 | Every placed widget has a renderer and is not hidden |
| `SectionOrganiser.RankByTier` | frontend/src/metabase/visualizations/components/ChartSettings.tsx:382-393 | The comparator key of "data", "display" and "axes" (any case) is 0, 1 or 2; any other name's key is 3 plus the first position of its lower case among the names |
| `SectionOrganiser.SortOrder` | frontend/src/metabase/visualizations/components/ChartSettings.tsx:382-388 | `sectionSortOrder`: "data", "display", "axes", then every section name lower-cased in insertion order; its consequences for the comparator key are `RankByTier` |
| `SectionOrganiser.Rank` | frontend/src/metabase/visualizations/components/ChartSettings.tsx:389-392 | The comparator key: the first position of a name's lower case in `sectionSortOrder`; `RankByTier` states its value for every name |
| `SectionOrganiser.SortSectionNames` | frontend/src/metabase/visualizations/components/ChartSettings.tsx:389-394 | `sectionNames.sort(...)` as a stable sort by `Rank`; `SortSectionNamesPermutation`, `SortSectionNamesTiers` and `SortSectionNamesRestInOrder` state what it returns |
| `SectionOrganiser.TierFollowsRank` | frontend/src/metabase/visualizations/components/ChartSettings.tsx:389-394 | A smaller comparator key never puts a name in a later group (data, display, axes, other) |
| `SectionOrganiser.SortSectionNamesPermutation` | frontend/src/metabase/visualizations/components/ChartSettings.tsx:379-394 | The sorted tab names are a permutation of the map's keys |
| `SectionOrganiser.SortSectionNamesTiers` | frontend/src/metabase/visualizations/components/ChartSettings.tsx:382-394 | In the sorted names, data-named tabs come first, then display, then axes, then all others |
| `SectionOrganiser.SortSectionNamesRestInOrder` | frontend/src/metabase/visualizations/components/ChartSettings.tsx:382-394 | When no two names other than data, display and axes are equal up to case, those names keep their insertion order |
| `SectionOrganiser.SortSectionNamesExample` | frontend/src/metabase/visualizations/components/ChartSettings.tsx:379-394 | Tabs inserted as Axes, Data, Display, Custom are shown as Data, Display, Axes, Custom |
| `SectionOrganiser.ExampleRanks` | frontend/src/metabase/visualizations/components/ChartSettings.tsx:382-393 | The comparator keys of Axes, Data, Display and Custom in that list are 2, 0, 1 and 6 |
| `SectionOrganiser.OrganiseSections` | frontend/src/metabase/visualizations/components/ChartSettings.tsx:361-394 | Build, fold and sort together give `Organise` of the widgets and the sorted key order, a permutation of the keys |
| `SectionOrganiser.ActiveSection` | frontend/src/metabase/visualizations/components/ChartSettings.tsx:396-400 | The active tab is the stored one if it is a non-empty existing key, else "Data" if that is a key, else the first sorted name. It is always an existing key, and there is none only when there are no tabs |
| `SectionOrganiser.ActiveSectionFallback` | frontend/src/metabase/visualizations/components/ChartSettings.tsx:396-400 | Without a usable stored tab or a "Data" tab, no key has a smaller sort key (or an earlier group) than the tab chosen |
| `SectionOrganiser.VisibleWidgets` | frontend/src/metabase/visualizations/components/ChartSettings.tsx:402 | The active tab's list, or nothing; `Render` proves every visible widget is shown, via `OrganisedWidgetsShown` |
| `SectionOrganiser.ShowSectionPicker` | frontend/src/metabase/visualizations/components/ChartSettings.tsx:442-451 | The section picker shows exactly when there is more than one tab |
| `StableSort.SortByPermutation` | frontend/src/metabase/visualizations/components/ChartSettings.tsx:389-394 | The sort returns a permutation of its input |
| `StableSort.SortBySorted` | frontend/src/metabase/visualizations/components/ChartSettings.tsx:389-394 | The sort returns its input ordered by the comparator key |
| `StableSort.FilterSortBy` | frontend/src/metabase/visualizations/components/ChartSettings.tsx:389-394 | Stability: selecting elements commutes with sorting, so elements the comparator ranks equal keep their input order |
| `StableSort.SortBySortedIdentity` | frontend/src/metabase/visualizations/components/ChartSettings.tsx:389-394 | An input already ordered by key is returned unchanged |
| `StableSort.FilterSortedWhereRising` | frontend/src/metabase/visualizations/components/ChartSettings.tsx:389-394 | Selected elements whose keys rise along the input form a key-ordered sequence |
| `PopoverResolvers.FormattingWidget` | frontend/src/metabase/visualizations/components/ChartSettings.tsx:333-343 | No widget when there is no current widget or no catalog widget with its id. Otherwise: the first catalog widget with that id, its props overlaid by the current widget's props, which win on every shared key |
| `PopoverResolvers.HasBreakouts` | frontend/src/metabase/visualizations/components/ChartSettings.tsx:303-304 | The chart has breakouts when `graph.dimensions` is truthy and has more than one entry; `StyleWidget` states that breakouts give no widget on the `initialKey` path |
| `PopoverResolvers.MetricColumnIs` | frontend/src/metabase/visualizations/components/ChartSettings.tsx:310-317 | A series matches when it has a truthy second column whose column key equals `initialKey`; `StyleWidget` states which series is chosen |
| `PopoverResolvers.StyleWidget` | frontend/src/metabase/visualizations/components/ChartSettings.tsx:274-331 | No widget when: there is no current widget; a pie chart's column settings are requested; the chart is a waterfall; there is no `series_settings` widget; or, on the `initialKey` path, `graph.dimensions` has more than one entry. A defined `seriesKey` gives the first `series_settings` widget with `initialKey = seriesKey`. Otherwise, with a truthy `initialKey` and no breakouts, there is a widget exactly when some series' metric column matches, and it is focused on the key of the first such series; anything else gives no widget |
| `SettingsOps.EffectiveSettings` | frontend/src/metabase/visualizations/components/ChartSettings.tsx:211-215 | The `settings` prop takes precedence over the first card's settings |
| `SettingsOps.ResetOffered` | frontend/src/metabase/visualizations/components/ChartSettings.tsx:437-440 | Reset is offered exactly when the settings are not `{}` and their `virtual_card` is null or absent; absent settings offer it |
| `SettingsOps.ResetSettings` | frontend/src/metabase/visualizations/components/ChartSettings.tsx:175-184 | The reset result has the keys of the original card settings and of the click-behaviour settings taken from the settings being edited; click-behaviour values win, and the other original values are kept |
| `TransientSettings.TransientSettingState.constructor` | frontend/src/metabase/visualizations/components/ChartSettings.tsx:68-73 | The local settings start as the settings prop |
| `TransientSettings.TransientSettingState.ReceiveProps` | frontend/src/metabase/visualizations/components/ChartSettings.tsx:75-79 | A different settings object from the owner replaces the local settings; the same object keeps them |
| `TransientSettings.TransientSettingState.Change` | frontend/src/metabase/visualizations/components/ChartSettings.tsx:86-88 | An edit from the editor replaces the local settings and touches nothing else |
| `TransientSettings.TransientSettingState.Done` | frontend/src/metabase/visualizations/components/ChartSettings.tsx:89-91 | Done forwards the settings it is given, or else the local settings |
| `TransientSettings.EditThenReceive` | frontend/src/metabase/visualizations/components/ChartSettings.tsx:75-88 | A local edit survives a re-render with the same settings object and is discarded by a different one |
| `ChartSettingsComponent.InitialSection` | frontend/src/metabase/visualizations/components/ChartSettings.tsx:143 | The initial tab is `initial.section` when present and non-empty, otherwise none |
| `ChartSettingsComponent.InitialWidget` | frontend/src/metabase/visualizations/components/ChartSettings.tsx:144 | The initial widget is `initial.widget` or none; the constructor and `ReceiveInitial` state that the selection starts from or is reset to it |
| `ChartSettingsComponent.ChartSettings.constructor` | frontend/src/metabase/visualizations/components/ChartSettings.tsx:140-146 | The selection starts from `initial`, with no popover anchor and no warnings |
| `ChartSettingsComponent.ChartSettings.ReceiveInitial` | frontend/src/metabase/visualizations/components/ChartSettings.tsx:148-156 | A changed `initial` resets the tab and widget to its values (or none), even with a popover open; an equal one changes nothing; the anchor and warnings are untouched |
| `ChartSettingsComponent.ChartSettings.ShowSection` | frontend/src/metabase/visualizations/components/ChartSettings.tsx:158-163 | Sets the tab and clears the popover widget, and changes nothing else |
| `ChartSettingsComponent.ChartSettings.ShowWidget` | frontend/src/metabase/visualizations/components/ChartSettings.tsx:166-168 | Changes only the popover widget and its anchor |
| `ChartSettingsComponent.ChartSettings.EndShowWidget` | frontend/src/metabase/visualizations/components/ChartSettings.tsx:171-173 | Clears the popover widget and anchor and keeps the tab |
| `ChartSettingsComponent.ChartSettings.UpdateWarnings` | frontend/src/metabase/visualizations/components/ChartSettings.tsx:480-482 | Stores the preview's warnings as given |
| `ChartSettingsComponent.ChartSettings.Render` | frontend/src/metabase/visualizations/components/ChartSettings.tsx:345-451 | The tab names are a permutation of the organised keys. The active tab is one of them, and exists exactly when there are tabs. The visible widgets are the active tab's list and all are shown. The picker shows exactly when there are two or more tabs. The popover gets the style and formatting widgets that exist, and nothing without a current widget |
| `ChartSettingsComponent.PresentWidgets` | frontend/src/metabase/visualizations/components/ChartSettings.tsx:494-497 | The widgets that exist, style widget first: one entry per present widget and no other |
| `ChartSettingsComponent.ShowWidgetThenEnd` | frontend/src/metabase/visualizations/components/ChartSettings.tsx:166-173 | Opening and then closing a popover leaves no popover widget or anchor and the previous tab |

## Left out

- JSX markup, styled components, `Radio`, `Button`, `ChartSettingsWidgetList`, `ChartSettingsWidgetPopover` and `ChartSettingsFooter` (lines 423-435, 453-525): presentation only. The footer's one decision, whether to show the reset button, is `ResetOffered`.
- The `Visualization` preview, `_getRawSeries` (icepick `assocIn`) and `_getTransformedSeries` (`extractRemappings`, `getVisualizationTransformed`): library code. The transformed series is a parameter of `Render` and `StyleWidget`.
- `_getWidgets` derivation through `getSettingsWidgetsForSeries` (lines 221-235): library code. The widget list is a parameter of `Render`.
- `handleChangeSettings` and `handleChangeSeriesColor` (lines 186-200): they only forward the results of the library's `updateSettings` and `updateSeriesColor` to the owner.
- `handleDone` and `handleCancel` (lines 202-209): owner callbacks with no state of the component behind them.
- `columnHasSettings` (lines 256-272): made entirely of library calls.
- `widgetsById` (lines 361, 365): built by the loop but never read.
- `_getComputedSettings` (lines 217-219): `Render` takes the computed settings with the `|| {}` default already applied.
- `_getSettings` when `series` is empty: the source would throw on `series[0]`. The card settings are a parameter here.
- Localisation: `DEFAULT_TAB_PRIORITY` is the literal `["Data"]`.
- Object key order: JavaScript lists integer-like keys first. The model keeps plain insertion order.
- Keys inherited from `Object.prototype`: section names such as `toString` or `constructor`, which the source's `sections[...]` lookups would find on the prototype, are not modelled.
- `toLowerCase` folds only the ASCII letters.
- Numbers are integers: floating point and `NaN` are not modelled.
- `popoverRef` is an opaque token rather than a DOM element.
- `_.isEqual` is datatype equality. A widget's render function is reduced to whether it is present, so two widgets that differ only in their render functions compare equal.
- Reference identity of settings objects in the wrapper is an identity number carried with the map.
- `Array.prototype.sort` sorts `sectionNames` in place. Here it is a stable insertion sort that returns a new sequence, and the in-place update is not modelled.
- A `graph.dimensions` value that is an object with its own `length` property is treated as having no length.
- An owner without `onChange` receives nothing: `Done` returns the settings that would be forwarded either way.
