# Status page front end, modelled in Dafny

This project models the browser side of the status page: the React app under `web/next/`
that lists monitored endpoints and suites, shows the health of each as a strip of coloured
segments, opens a detail page per endpoint or suite, and keeps a few preferences in browser
storage. It is written in Dafny 4.11 and proved with the verifier. Every core source file
has a module of its own:

| module | source | form |
|---|---|---|
| `Utils` | `web/next/lib/utils.ts` | functions: relative ages, spans, timestamps, interval labels |
| `Config` | `web/next/lib/config.ts` | functions: the injected configuration and its readers |
| `ResultStats` | shared by the endpoint card and the endpoint page | functions: measured durations, average, range, status |
| `HealthBar` | `web/next/components/health-bar.tsx` | the padded window, colours and labels, and the `Strip` class |
| `Tooltip` | `web/next/components/tooltip.tsx` | placement functions and the `TooltipBox` class |
| `TooltipHost` | the tooltip handlers every page repeats | the `Host` class |
| `EndpointCard`, `SuiteCard` | `endpoint-card.tsx`, `suite-card.tsx` | functions, and a loop method for the card's figure |
| `Dashboard` | `web/next/components/dashboard.tsx` | search, filter, sort and grouping, and the `DashboardView` class |
| `EndpointDetail`, `SuiteDetail` | `endpoint-detail.tsx`, `suite-detail.tsx` | event history loop, figures, and the page classes |
| `Chart` | `web/next/components/response-time-chart.tsx` | geometry in reals, drawing loops, and the `ResponseTimeChart` class |
| `Settings` | `web/next/components/settings.tsx` | interval menu and theme, and the `SettingsPanel` class |
| `Page` | `web/next/app/page.tsx` | routing and the login gate, and the `App` class |

Some modules are helpers with no source file of their own:
- `Types` holds the records of `lib/types.ts`.
- `Wrappers` holds `Option`.
- `Numeric` holds rounding and division lemmas.
- `Strings` holds decimal numerals, JavaScript's `parseInt` (skipping every leading white space and line terminator character of ECMA-262, the Unicode space separators included), and `includes`.
- `Seqs` holds filtering and subsequences.
- `Sorting` holds the code-unit order that stands for `localeCompare`, and an insertion sort that stands for `Array.prototype.sort`.

Conventions:
- **State.** Component state that React updates in place is a class field. Each event
  handler is a method whose `ensures` gives the whole new state. What a handler hands to
  the outside (an `onTooltip` call, a dispatched window event, a value written to storage)
  comes back as an out-parameter.
- **Time.** The current time (`Date.now()`) is a parameter `now`, and timestamps are
  integer milliseconds.
- **Durations.** Durations are integer nanoseconds, and 0 means "not measured", as the
  source's truthiness tests treat it. JavaScript's `Math.round(a / b)` is
  `Numeric.RoundDiv(a, b)`; `Math.trunc` of a non-negative quotient is integer division.
- **Case folding.** `toLowerCase` is a function parameter `fold` of the dashboard.
- **Geometry.** Tooltip placement and the chart are computed over `real`, because
  bounding boxes are fractional pixels.

## Model

| member | source | states |
|---|---|---|
| Utils.AgeOf | web/next/lib/utils.ts:9-25 | 'now' exactly below 500 ms; otherwise days above three days, hours above an hour, minutes above a minute, else seconds, with the count the rounded quotient and within each unit's range |
| Utils.TimeAgo | web/next/lib/utils.ts:10-11 | the relative age is 'now' exactly when the difference is under 500 ms |
| Utils.TimeAgoReadsBack | web/next/lib/utils.ts:12-25 | every other age ends in " ago" and reads back, with `parseInt`, as the rounded count of its unit |
| Utils.TimeAgoPlural | web/next/lib/utils.ts:14-25 | the unit carries a plural 's' exactly when the count is not 1 |
| Utils.TimeAgoNearExamples | web/next/lib/utils.ts:11-25 | 450 ms and negative differences read 'now'; 500 ms reads '1 second ago' |
| Utils.TimeAgoMinuteThreshold | web/next/lib/utils.ts:20-25 | exactly one minute still reads '60 seconds ago', one millisecond more '1 minute ago' |
| Utils.TimeAgoHourThreshold | web/next/lib/utils.ts:16-22 | exactly one hour reads '60 minutes ago' |
| Utils.TimeAgoHoursExample | web/next/lib/utils.ts:16-18 | two hours read '2 hours ago' |
| Utils.SixtySeconds | web/next/lib/utils.ts:24-25 | one minute in the seconds branch is a count of 60 seconds, spelled '60 seconds' |
| Utils.SixtyMinutes | web/next/lib/utils.ts:20-22 | one hour in the minutes branch is a count of 60 minutes, spelled '60 minutes' |
| Utils.SpanOf | web/next/lib/utils.ts:30-45 | the floored seconds split into hours and leftover minutes, or minutes and leftover seconds, or seconds alone, with the parts reconstructing the total |
| Utils.TimeDifferenceLeads | web/next/lib/utils.ts:29-46 | the text of a difference reads back, with `parseInt`, as its leading count |
| Utils.TimeDifferenceText | web/next/lib/utils.ts:29-46 | over all inputs, on the floored seconds t: from an hour up the hours, then ' M minute(s)' only when the leftover minutes are not 0; from a minute up the minutes, then ' S second(s)' only when the leftover seconds are not 0; below a minute the seconds alone; each count singular exactly at 1 |
| Utils.SpanTextLeads | web/next/lib/utils.ts:35-45 | each of the three spellings of a span begins with its leading count |
| Utils.SpanNotNegative | web/next/lib/utils.ts:30-33 | a non-negative difference has a non-negative leading count |
| Utils.TimeDifferenceWholeHour | web/next/lib/utils.ts:35-38 | a whole hour is '1 hour', with no minutes part |
| Utils.TimeDifferenceHourMinutes | web/next/lib/utils.ts:35-38 | 65 minutes is '1 hour 5 minutes' |
| Utils.TimeDifferenceMinuteSecond | web/next/lib/utils.ts:40-43 | 61.999 s is '1 minute 1 second', seconds floored |
| Utils.TimeDifferenceNegative | web/next/lib/utils.ts:30-45 | a start before the end gives a negative, floored count of seconds ('-2 seconds' for -1.5 s) |
| Utils.FormatTimestampLayout | web/next/lib/utils.ts:49-53 | for a four-digit year the stamp is 19 characters, with each field at a fixed position, zero-padded, and reading back as that field (the month one-based) |
| Utils.DurationMsReadsBack | web/next/lib/utils.ts:56-58 | the duration text ends in "ms" and reads back as the rounded number of milliseconds |
| Utils.FormatRefreshInterval | web/next/lib/utils.ts:61-64 | minutes (seconds / 60, possibly fractional) exactly from 60 s up, otherwise the seconds unchanged |
| Config.GetConfig | web/next/lib/config.ts:3-30 | the injected configuration when there is one, otherwise the built-in defaults field by field |
| Config.LogoMeaning | web/next/lib/config.ts:33-37 | the logo passes through exactly when it holds no placeholder, is '' exactly when it is unset, and never carries a placeholder |
| Config.LinkMeaning | web/next/lib/config.ts:40-44 | a link is given exactly when it is set, and a given link is the configured, non-empty, placeholder-free one |
| Config.DefaultsHaveNoBrand | web/next/lib/config.ts:3-44 | without an injected configuration there is neither logo nor link |
| ResultStats.Measured | web/next/components/endpoint-detail.tsx:105 | the durations taken are all positive and no more than the results |
| ResultStats.MeasuredMembers | web/next/components/endpoint-detail.tsx:105 | a value is taken exactly when it is positive and some result has it as its duration |
| ResultStats.MeasuredEmpty | web/next/components/endpoint-detail.tsx:103-106 | nothing is measured exactly when every duration is 0 |
| ResultStats.MeasuredAppend | web/next/components/endpoint-card.tsx:34-42 | measuring distributes over concatenation, so the loop's prefix reading is sound |
| ResultStats.MeasuredSkipsZero | web/next/components/endpoint-card.tsx:35 | a result without a duration changes none of the figures |
| ResultStats.MinMaxBounds | web/next/components/endpoint-detail.tsx:111-112 | the minimum and maximum bound every measured duration and occur among them |
| ResultStats.SumBounds | web/next/components/endpoint-detail.tsx:104-106 | the total lies between count times minimum and count times maximum |
| ResultStats.RangeOrdered | web/next/components/endpoint-detail.tsx:114-115 | the range's low end never exceeds its high end |
| ResultStats.AverageWithinRange | web/next/components/endpoint-detail.tsx:106-114 | the rounded average is at least the truncated minimum and at most the rounded maximum |
| ResultStats.RangeTextReadsBack | web/next/components/endpoint-detail.tsx:114-115 | one value when both ends agree, 'lo-hi' otherwise, reading back as its low end |
| ResultStats.RangeOfReadsBack | web/next/components/endpoint-card.tsx:47-49 | the range spelling reads back as its low end, single when the ends are equal |
| ResultStats.LatestSuccess | web/next/components/endpoint-card.tsx:24 | no flag exactly for an empty list, else the last result's success; one definition serves endpoint and suite results |
| ResultStats.StatusCases | web/next/components/endpoint-card.tsx:24-25 | 'unknown' exactly without results, 'healthy' or 'unhealthy' by the last result's success |
| ResultStats.StoredFlag | web/next/components/dashboard.tsx:230-236 | the stored preference is 'true' exactly when the average is shown and 'false' exactly when it is not |
| ResultStats.ShowAverageFrom | web/next/components/dashboard.tsx:48-50 | the average is hidden exactly when the stored value is 'false', so a missing value shows it |
| ResultStats.StoredFlagReadsBack | web/next/components/dashboard.tsx:49-50 | what a toggle stores is read back as the same preference on the next mount |
| EndpointCard.Hostname | web/next/components/endpoint-card.tsx:26 | no host name exactly without results, else the last result's |
| EndpointCard.ResponseTimeText | web/next/components/endpoint-card.tsx:28-50 | the loop over the results yields the figure of the measured durations |
| EndpointCard.ResponseTimeFigureMeaning | web/next/components/endpoint-card.tsx:28-50 | 'N/A' exactly when nothing is measured; otherwise '~' and the rounded mean (at least the low end), or a range reading back as its low end |
| EndpointCard.NotNA | web/next/components/endpoint-card.tsx:43-49 | with any measured duration the figure is never 'N/A' |
| EndpointDetail.History | web/next/components/endpoint-detail.tsx:66-86 | one processed entry per event |
| EndpointDetail.ProcessEvents | web/next/components/endpoint-detail.tsx:66-85 | the backward loop builds exactly the labelled history |
| EndpointDetail.HistoryOrder | web/next/components/endpoint-detail.tsx:68-83 | the history lists the events newest first, each once, each with its own age |
| EndpointDetail.HistoryTexts | web/next/components/endpoint-detail.tsx:71-82 | the first entry states the current state; every later one is labelled against the entry above it |
| EndpointDetail.HistoryAt | web/next/components/endpoint-detail.tsx:68-83 | entry k is event len-1-k with its labels |
| EndpointDetail.NewestEventTextCases | web/next/components/endpoint-detail.tsx:72 | each of the three texts of the newest entry appears exactly for its event type |
| EndpointDetail.UnhealthySpellNotNegative | web/next/components/endpoint-detail.tsx:76-78 | an unhealthy spell ended by a later event reads 'Endpoint was unhealthy for' a span whose count is a non-negative number |
| EndpointDetail.AverageResponseTime | web/next/components/endpoint-detail.tsx:102-107 | the loop yields the average figure of the measured durations |
| EndpointDetail.ResponseTimeRange | web/next/components/endpoint-detail.tsx:109-116 | the loop yields the range figure of the measured durations |
| EndpointDetail.FiguresMeaning | web/next/components/endpoint-detail.tsx:102-116 | both figures are 'N/A' exactly when nothing is measured; otherwise they read back as the rounded mean and the low end, the mean lying within the range |
| EndpointDetail.FigureNotNA | web/next/components/endpoint-detail.tsx:106-115 | with a measured duration neither figure is 'N/A' |
| EndpointDetail.CurrentStatusText | web/next/components/endpoint-detail.tsx:98-99 | 'Operational' exactly when the latest result of the first page succeeded, else 'Issues Detected' |
| EndpointDetail.LastCheckText | web/next/components/endpoint-detail.tsx:118 | 'Never' without results, else the age of the last result |
| EndpointDetail.EndpointDetailView.constructor | web/next/components/endpoint-detail.tsx:41-48 | page 1, nothing fetched, no chart, average shown, not refreshing |
| EndpointDetail.EndpointDetailView.FetchStarted | web/next/components/endpoint-detail.tsx:59-60 | a fetch starting turns the refresh indicator on, which disables the refresh button (line 184), and hands back the page the callback closed over; nothing else changes |
| EndpointDetail.EndpointDetailView.FetchSettled | web/next/components/endpoint-detail.tsx:59-94 | a failed fetch changes only the refresh flag; a success replaces the endpoint, the current status only when the fetch was issued for page 1 (whatever page is shown when it settles), the history when there are events, and latches the chart on a measured duration |
| EndpointDetail.PreviousDuringFetch | web/next/components/endpoint-detail.tsx:59-94 | a page-2 fetch that settles after "Previous" has moved to page 1 replaces the endpoint but keeps the current status |
| EndpointDetail.EndpointDetailView.ClickPrevious | web/next/components/endpoint-detail.tsx:192 | disabled on page 1; otherwise one page back; the page never drops below 1 |
| EndpointDetail.EndpointDetailView.ClickNext | web/next/components/endpoint-detail.tsx:194 | disabled on an empty or short page; otherwise one page on |
| EndpointDetail.EndpointDetailView.LoadPreference | web/next/components/endpoint-detail.tsx:54-57 | the stored preference decides whether the average is shown |
| EndpointDetail.EndpointDetailView.ToggleResponseTimeDisplay | web/next/components/endpoint-detail.tsx:132-134 | flips the preference and stores the new value |
| HealthBar.SliceFrom | web/next/components/health-bar.tsx:21 | `slice(start)`: a suffix; negative starts count from the end and clamp at the front |
| HealthBar.BuildDisplay | web/next/components/health-bar.tsx:18-22 | the unshift loop and the slice yield exactly the window |
| HealthBar.WindowShape | web/next/components/health-bar.tsx:18-22 | a positive window has maxResults slots, padding exactly before the last results, which fill the rest in order |
| HealthBar.WindowZeroShowsAll | web/next/components/health-bar.tsx:21 | a zero window shows every result |
| HealthBar.WindowNegativeDropsOldest | web/next/components/health-bar.tsx:20-21 | a negative window drops that many oldest results and pads nothing |
| HealthBar.WindowEndsWithNewest | web/next/components/health-bar.tsx:18-22 | a non-empty strip ends with the newest result |
| HealthBar.SegmentColour | web/next/components/health-bar.tsx:74-84 | neutral exactly for padding, green or red by success, the dark shade exactly for the selected segment |
| HealthBar.OldestLabelThrowsWithoutPositiveWindow | web/next/components/health-bar.tsx:24-26 | see Findings: without a positive window the oldest label reads past the end of the results |
| HealthBar.OldestShownAgrees | web/next/components/health-bar.tsx:24-26 | for a positive window the written index is that of the oldest result shown, and one is shown exactly when there are results |
| HealthBar.OldestLabelAgrees | web/next/components/health-bar.tsx:24-26 | for a positive window the written oldest label equals the intended one |
| HealthBar.OldestLabelZeroWindowExample | web/next/components/health-bar.tsx:21-25 | with a zero window and one result the written index is 1 while the strip shows that result |
| HealthBar.NewestLabelIsLastSlot | web/next/components/health-bar.tsx:27-29 | the newest label describes the last segment |
| HealthBar.ClickStep | web/next/components/health-bar.tsx:42-56 | nothing for padding or without a callback; otherwise the broadcast, then unselecting the selected segment (and dropping the tooltip) or selecting this one (and pinning it) |
| HealthBar.ClickTwice | web/next/components/health-bar.tsx:47-53 | two clicks on a segment select then unselect it, pinning then dropping the tooltip |
| HealthBar.Strip.constructor | web/next/components/health-bar.tsx:13-22 | a mounted strip shows the window and selects nothing |
| HealthBar.Strip.Rerender | web/next/components/health-bar.tsx:14-22 | new props recompute the window and keep the selected index |
| HealthBar.Strip.MouseEnter | web/next/components/health-bar.tsx:31-36 | a hover request for a result segment with a callback, nothing otherwise |
| HealthBar.Strip.MouseLeave | web/next/components/health-bar.tsx:38-40 | a hover request to drop the tooltip when there is a callback |
| HealthBar.Strip.Click | web/next/components/health-bar.tsx:42-56 | the click step on this strip's selection; the display stays the window of the results, and nothing else of the strip changes |
| HealthBar.ClickOneOfTwo | web/next/components/health-bar.tsx:45-65 | a click on one strip leaves another strip's selection as it was, since nothing listens to the broadcast |
| TooltipHost.HandleRules | web/next/components/dashboard.tsx:190-210 | a click with a result pins it, a click without one clears; a hover never changes pinning, does nothing while pinned, and otherwise shows its result |
| TooltipHost.HoversKeepPinned | web/next/components/dashboard.tsx:202-207 | any run of hovers leaves a pinned tooltip as it is |
| TooltipHost.BroadcastThenNotify | web/next/components/health-bar.tsx:46-52 | a click's effects reach the page as its request alone, the broadcast having no listener |
| TooltipHost.ClickTwiceClearsHost | web/next/components/dashboard.tsx:192-201 | the first click on a segment pins its result; the second clears the page's tooltip |
| TooltipHost.Host.constructor | web/next/components/dashboard.tsx:43-45 | no result, no anchor, not pinned |
| TooltipHost.Host.HandleTooltip | web/next/components/dashboard.tsx:190-210 | the state after a request is the handler's rule applied to the state before |
| TooltipHost.Host.DismissTooltip | web/next/components/dashboard.tsx:212-217 | clears the tooltip and dispatches the clear-selection event |
| Tooltip.PlacementDefault | web/next/components/tooltip.tsx:26-40 | with room below and to the right the box sits 8 px under the anchor at its left edge |
| Tooltip.VerticalPlacement | web/next/components/tooltip.tsx:26-32 | flipped above its bottom is 8 px over the anchor, otherwise its top is 8 px under it |
| Tooltip.HorizontalPlacement | web/next/components/tooltip.tsx:27-38 | on overflow it aligns with the anchor's right edge but stays 10 px from the left; otherwise at the anchor's left |
| Tooltip.TopIgnoresHorizontal | web/next/components/tooltip.tsx:26-32 | the top depends only on vertical measures |
| Tooltip.LeftIgnoresVertical | web/next/components/tooltip.tsx:27-38 | the left depends only on horizontal measures |
| Tooltip.PlacementRounded | web/next/components/tooltip.tsx:40 | the position is the computed one rounded to the nearest pixel |
| Tooltip.NextVisibleSettles | web/next/components/tooltip.tsx:43-51 | shown with a result and an anchor; a pinned tooltip never hides itself; hidden only on losing one without pinning |
| Tooltip.DismissRule | web/next/components/tooltip.tsx:60-70 | a click inside the box or on a strip never dismisses; only a click elsewhere while pinned and mounted does |
| Tooltip.ResponseTimeLineValue | web/next/components/tooltip.tsx:92 | the response time shown reads back as the truncated milliseconds, within one of the rounded figure |
| Tooltip.TooltipBox.constructor | web/next/components/tooltip.tsx:16-17 | hidden at the origin with no props |
| Tooltip.TooltipBox.SetProps | web/next/components/tooltip.tsx:43-51 | new props set visibility by the effect's rule and ask for a measurement exactly with a result and an anchor |
| Tooltip.TooltipBox.UpdatePosition | web/next/components/tooltip.tsx:19-41 | without an anchor or a rendered box nothing moves; otherwise the box takes the computed placement |
| Tooltip.TooltipBox.DocumentClick | web/next/components/tooltip.tsx:60-70 | a document click dismisses by the rule above |
| Chart.PlotRectangle | web/next/components/response-time-chart.tsx:50-68 | the plot is 80 px narrower than the canvas and 240 px high, its base at 260 px |
| Chart.MaxVal | web/next/components/response-time-chart.tsx:73 | at least 1, at least every value, and one of them unless it is 1 |
| Chart.YScale | web/next/components/response-time-chart.tsx:114 | the maximum maps to the top, 0 to the base, values in range inside, larger values higher |
| Chart.SeriesInsidePlot | web/next/components/response-time-chart.tsx:73-114 | every non-negative point of the series lies inside the plot |
| Chart.DrawGrid | web/next/components/response-time-chart.tsx:82-90 | six evenly spaced lines, each labelled with its rounded share of the maximum |
| Chart.GridEnds | web/next/components/response-time-chart.tsx:82-90 | the top line reads the rounded maximum, the bottom one '0ms' on the base |
| Chart.ZeroMsLabel | web/next/components/response-time-chart.tsx:88 | the bottom label reads '0ms' |
| Chart.XEnds | web/next/components/response-time-chart.tsx:97-113 | the first point is at the left edge of the plot and the last at its right |
| Chart.LabelIndices | web/next/components/response-time-chart.tsx:94-96 | up to six label indices, strictly increasing, from the first timestamp to the last |
| Chart.DrawXLabels | web/next/components/response-time-chart.tsx:94-104 | one label per index, each at its point's x |
| Chart.BuildPath | web/next/components/response-time-chart.tsx:111-117 | one point per value, at its x and scaled y |
| Chart.FillIsClosedUnderLine | web/next/components/response-time-chart.tsx:125-131 | the fill is the path closed along the base, from the last x back to the first |
| Chart.HoverIndexAt | web/next/components/response-time-chart.tsx:183-199 | a hover index is always a valid index |
| Chart.HoverInvertsX | web/next/components/response-time-chart.tsx:189-196 | hovering over a point's x selects that point |
| Chart.HoverExample | web/next/components/response-time-chart.tsx:189-196 | on a 380 px canvas with three values, x = 210 selects the middle one |
| Chart.HoverBoxPlacement | web/next/components/response-time-chart.tsx:158-164 | the box goes right of the point unless it would pass the plot, then left; above unless it would pass the top, then below |
| Chart.HoverPoint | web/next/components/response-time-chart.tsx:134-136 | the indicator is drawn exactly for a valid hover index |
| Chart.ResponseTimeChart.constructor | web/next/components/response-time-chart.tsx:16-20 | loading, no error, no data, no hover |
| Chart.ResponseTimeChart.ViewOf | web/next/components/response-time-chart.tsx:204-226 | spinner while loading, then the error, then 'No data available' exactly for no values, else the canvas |
| Chart.ResponseTimeChart.BeginFetch | web/next/components/response-time-chart.tsx:24-25 | loading with the error cleared, the data kept |
| Chart.ResponseTimeChart.FetchSucceeded | web/next/components/response-time-chart.tsx:27-33 | the new series replaces the old; loading ends |
| Chart.ResponseTimeChart.FetchFailed | web/next/components/response-time-chart.tsx:30-33 | the load error is set and loading ends; the old series stays |
| Chart.ResponseTimeChart.MouseMove | web/next/components/response-time-chart.tsx:183-202 | the hover index is the one under the cursor, unchanged without values |
| Chart.ResponseTimeChart.MouseLeave | web/next/components/response-time-chart.tsx:233 | the hover index is cleared |
| Sorting.LexTotal | web/next/components/dashboard.tsx:114 | any two names compare one way or the other |
| Sorting.LexTransitive | web/next/components/dashboard.tsx:114 | the name order is transitive |
| Sorting.LexAntisymmetric | web/next/components/dashboard.tsx:114 | names that compare both ways are equal |
| Sorting.SortBy | web/next/components/dashboard.tsx:109 | sorting keeps the elements, with their multiplicities |
| Sorting.SortBySorted | web/next/components/dashboard.tsx:109-115 | by a total preorder the result is sorted |
| Dashboard.EntryOf | web/next/components/dashboard.tsx:89-148 | what the filters read of an endpoint or a suite: its name, its group and the success of each result, one per result in order |
| Dashboard.VisibleMembers | web/next/components/dashboard.tsx:87-118 | an entry is listed exactly when it was fetched, matches the query (when set) in its name or non-empty group, and passes the filter |
| Dashboard.VisibleKeepsOrder | web/next/components/dashboard.tsx:87-118 | unless sorted by health the list keeps the fetched order |
| Dashboard.UnfilteredShowsAll | web/next/components/dashboard.tsx:88-107 | with no query and no filter every fetched entry is listed |
| Dashboard.FailingWithinUnstable | web/next/components/dashboard.tsx:97-106 | every failing entry is unstable, so the failing list is no longer than the unstable one |
| Dashboard.HealthOrderTotal | web/next/components/dashboard.tsx:109-115 | the health comparator is a total preorder |
| Dashboard.HealthSortFailingFirst | web/next/components/dashboard.tsx:108-116 | sorting by health keeps the entries and puts failing entries first, each part in name order |
| Dashboard.UnhealthyCountMeaning | web/next/components/dashboard.tsx:238-242 | the count is 0 exactly when none fails, the length exactly when all fail, and adds over concatenation |
| Dashboard.MembersExactly | web/next/components/dashboard.tsx:159-168 | a group holds exactly the entries whose group (or 'No Group') is its key |
| Dashboard.GroupLeTotal | web/next/components/dashboard.tsx:169-173 | the heading order is a total preorder |
| Dashboard.TableOfEndpoints | web/next/components/dashboard.tsx:159-163 | the first loop leaves a group per key holding its endpoints in order |
| Dashboard.AddSuites | web/next/components/dashboard.tsx:164-168 | the second loop adds each suite to its group, creating missing ones |
| Dashboard.SortedKeys | web/next/components/dashboard.tsx:169-173 | sorting the distinct keys keeps them distinct and the same, in heading order |
| Dashboard.ListSorted | web/next/components/dashboard.tsx:169-176 | listing the groups by the sorted keys gives a correct grouping |
| Dashboard.CombineGroups | web/next/components/dashboard.tsx:156-177 | corrected (see Findings): one group per key in heading order, each holding exactly its endpoints and suites in order |
| Dashboard.EndpointInOneGroup | web/next/components/dashboard.tsx:159-175 | every listed endpoint is in exactly the group its key names |
| Dashboard.SuiteInOneGroup | web/next/components/dashboard.tsx:164-175 | every listed suite is in exactly the group its key names |
| Dashboard.NoGroupLast | web/next/components/dashboard.tsx:169-173 | 'No Group' comes last, the named groups before it in name order |
| Dashboard.BadgeShown | web/next/components/dashboard.tsx:308-314 | a heading shows a count exactly when its group holds a failing endpoint or suite |
| Dashboard.GroupSlotAsWritten | web/next/components/dashboard.tsx:158-166 | see Findings: a name inherited from `Object.prototype` finds no group and creates none |
| Dashboard.PrototypeGroupNameThrows | web/next/components/dashboard.tsx:158-162 | see Findings: such a group name stops the grouping as written |
| Dashboard.Toggled | web/next/components/dashboard.tsx:220-227 | toggling flips membership of that group and of no other |
| Dashboard.ToggleTwice | web/next/components/dashboard.tsx:220-227 | toggling twice restores the set |
| Dashboard.AnnouncementsSplit | web/next/components/dashboard.tsx:180-187 | every announcement is in exactly one of the banner's and the past list, by its archived flag |
| Dashboard.NothingFoundMeaning | web/next/components/dashboard.tsx:277-286 | 'No endpoints or suites are configured' only when nothing was fetched; 'Try adjusting your filters' only with a query or a filter |
| Dashboard.DashboardView.constructor | web/next/components/dashboard.tsx:33-40 | empty lists, not loading, no query, filter 'none', sort 'name', average shown, no group expanded |
| Dashboard.DashboardView.LoadPreferences | web/next/components/dashboard.tsx:48-55 | the stored preference decides the average; stored groups that parse replace the expanded set |
| Dashboard.DashboardView.BeginFetch | web/next/components/dashboard.tsx:58-60 | corrected (see Findings): the spinner starts exactly for a first load, both lists being empty; the lists are kept |
| Dashboard.DashboardView.BeginFetchAsWritten | web/next/components/dashboard.tsx:58-74 | see Findings: the memoised callback reads the empty lists of the first render, so every fetch raises the spinner |
| Dashboard.TimerRefreshAsWritten | web/next/components/dashboard.tsx:58-74 | see Findings: a timer refresh of a loaded dashboard hides its list as written, and keeps it shown as intended |
| Dashboard.DashboardView.FetchSettled | web/next/components/dashboard.tsx:61-72 | each list is replaced only by a fetch that succeeded, a null suite list reading as empty; the first load's spinner ends |
| Dashboard.DashboardView.RefreshData | web/next/components/dashboard.tsx:80-84 | both lists are emptied, so the refresh is a first load with the spinner |
| Dashboard.DashboardView.ToggleGroup | web/next/components/dashboard.tsx:220-228 | the expanded set toggles that group and is what gets stored |
| Dashboard.DashboardView.ToggleResponseTimeDisplay | web/next/components/dashboard.tsx:230-236 | flips the preference and stores the new value |
| Dashboard.DashboardView.CombinedGroups | web/next/components/dashboard.tsx:154-177 | groups exactly when sorting by group, and then a correct grouping of the listed entries |
| SuiteCard.Adapted | web/next/components/suite-card.tsx:26-34 | one adapted result per suite result |
| SuiteCard.AdaptedAligned | web/next/components/suite-card.tsx:26-34 | each adapted entry keeps its suite result's duration, success and time, with status 0 and no host name, conditions or errors |
| SuiteCard.AdaptedAppend | web/next/components/suite-card.tsx:27 | adapting distributes over concatenation |
| SuiteCard.StatusThroughAdapted | web/next/components/suite-card.tsx:21-34 | the badge reads the same from the adapted list |
| SuiteCard.BadgeMatchesNewestSegment | web/next/components/suite-card.tsx:21-66 | the badge is 'unknown' exactly without results, otherwise 'healthy' exactly when the strip's newest segment is green and 'unhealthy' exactly when red |
| SuiteDetail.CurrentStatusText | web/next/components/suite-detail.tsx:46-47 | 'All Passing' exactly when the last result succeeded, else 'Failures Detected' |
| SuiteDetail.NoResultsReadAsFailures | web/next/components/suite-detail.tsx:46-47 | without results the status is 'unknown' and the page says 'Failures Detected' |
| SuiteDetail.LastCheckText | web/next/components/suite-detail.tsx:65 | 'Never' without results, else the last result's age |
| SuiteDetail.ShowsHealthBarIff | web/next/components/suite-detail.tsx:105 | the strip is drawn exactly when the suite has results |
| SuiteDetail.SuiteDetailView.constructor | web/next/components/suite-detail.tsx:24-26 | page 1, no suite, not refreshing |
| SuiteDetail.SuiteDetailView.FetchStarted | web/next/components/suite-detail.tsx:33 | the refresh indicator is on |
| SuiteDetail.SuiteDetailView.FetchSettled | web/next/components/suite-detail.tsx:34-41 | a fetched suite replaces the shown one, a failure keeps it; the indicator is off |
| SuiteDetail.SuiteDetailView.ClickPrevious | web/next/components/suite-detail.tsx:107 | disabled on page 1; otherwise one page back; never below 1 |
| SuiteDetail.SuiteDetailView.ClickNext | web/next/components/suite-detail.tsx:109 | disabled on an empty or short page; otherwise one page on |
| Settings.ListedValues | web/next/components/settings.tsx:7-14 | the menu holds exactly 10, 30, 60, 120, 300 and 600 seconds |
| Settings.AdoptStoredMeaning | web/next/components/settings.tsx:33-41 | a stored value is adopted exactly when `parseInt`, skipping JavaScript's whole leading white-space set, reads it as a listed interval, so the interval stays listed |
| Settings.StoredReadsBack | web/next/components/settings.tsx:36-66 | what a selection stores reads back as that interval on the next mount |
| Strings.ParseIntSkipsSpace | web/next/components/settings.tsx:36 | any leading white space or line terminator, U+3000 and the other space separators included, leaves what `parseInt` reads unchanged |
| Settings.AdoptsAfterIdeographicSpace | web/next/components/settings.tsx:33-41 | a stored '30' behind U+3000 is adopted as 30 |
| Strings.ParseIntOfNumeral | web/next/components/settings.tsx:36-66 | `parseInt` reads back any number written in decimal, whatever follows it |
| Settings.FindLabel | web/next/components/settings.tsx:80 | no label exactly when no entry has the value, else the caption of an entry with it |
| Settings.FormatLabel | web/next/components/settings.tsx:79-82 | an unlisted value is shown as its seconds |
| Settings.MenuLabelsAgreeWithFormatter | web/next/components/settings.tsx:79-82 | every menu caption is what `formatRefreshInterval` gives for its value |
| Settings.NextTheme | web/next/components/settings.tsx:73-74 | 'light' exactly from dark, otherwise 'dark' |
| Settings.ThemeToggleTwice | web/next/components/settings.tsx:73-75 | two toggles from a resolved theme return to it |
| Settings.SettingsPanel.constructor | web/next/components/settings.tsx:24-41 | the default interval overridden by a stored value that `parseInt` reads as a listed interval, the menu closed, no refresh yet |
| Settings.SettingsPanel.TimerPeriodMs | web/next/components/settings.tsx:44-50 | the timer period is the interval in milliseconds, never under ten seconds |
| Settings.SettingsPanel.Tick | web/next/components/settings.tsx:46 | one refresh per timer firing |
| Settings.SettingsPanel.ClickButton | web/next/components/settings.tsx:91 | the button toggles the menu |
| Settings.SettingsPanel.DocumentClick | web/next/components/settings.tsx:53-61 | a click outside the pill closes the menu; one inside leaves it |
| Settings.SettingsPanel.SelectInterval | web/next/components/settings.tsx:63-71 | adopts and stores the value, closes the menu, refreshes once, and the interval stays listed |
| Page.MatchRest | web/next/app/page.tsx:30-35 | the pattern matches exactly a path that starts with the prefix and continues with one or more non-terminator characters, and captures that rest |
| Page.ResolvePathOf | web/next/app/page.tsx:28-41 | resolving a view's path gives the view back, for any key without line terminators, '/' included |
| Page.ResolveRouteMeaning | web/next/app/page.tsx:28-41 | an endpoint view exactly when the endpoint pattern matches, a suite view exactly when the suite pattern does, else the dashboard; a detail view's path is the path resolved |
| Page.PrefixesExclusive | web/next/app/page.tsx:30-36 | no path matches both prefixes, so the order of the tests is immaterial |
| Page.BarePrefixShowsDashboard | web/next/app/page.tsx:30-40 | '/', '/endpoints/' and '/suites/' all show the dashboard |
| Page.InnerPrefixShowsDashboard | web/next/app/page.tsx:30-40 | a prefix further into the path does not select a detail page |
| Page.KeyWithSlashExample | web/next/app/page.tsx:30-32 | a key holding '/' is captured whole |
| Page.App.constructor | web/next/app/page.tsx:20-25 | no configuration, not loaded, the dashboard route |
| Page.App.Navigate | web/next/app/page.tsx:28-69 | the route becomes the path's resolution |
| Page.App.ConfigSettled | web/next/app/page.tsx:51-57 | the spinner ends whether the fetch succeeded or not; a success sets the configuration |
| Page.App.ConfigRefreshed | web/next/app/page.tsx:59-61 | a refresh that succeeded replaces the configuration; a failure changes nothing |
| Page.App.Render | web/next/app/page.tsx:72-157 | spinner exactly before the load settles, login exactly when OIDC is on and the visitor is not signed in, otherwise the route's page with the configuration's announcements (none for suites) |
| Page.FailedFetchShowsRoute | web/next/app/page.tsx:51-57 | a failed first fetch still shows the routed page, with no login and no announcements |

## Left out

- Rendering, styling, DOM nodes and refs are not modelled. Anchors are opaque values, and a bounding box is a record of reals.
- Network calls and `lib/api.ts` are not modelled. Every fetch is split into a start method (`FetchStarted`, `BeginFetch`) and a settle method, which takes the fetched value or `None` for a rejection. The app's configuration fetch changes nothing when it starts, so it has only a settle method.
- The browser environment is passed in rather than modelled:
  - `Date.now()` is the parameter `now`;
  - `new Date(...)` conversions become integer milliseconds and `DateFields`;
  - storage reads are parameters and storage writes are out-parameters (the settings pill keeps its storage in a field);
  - `requestAnimationFrame`, `setInterval`, `resize` and the theme cookie are not modelled. The timer appears only as `TimerPeriodMs` and `Tick`.
- Floating point is not modelled:
  - durations and times are exact integers, so `Math.round` and `Math.trunc` are exact;
  - chart and tooltip geometry is exact `real` arithmetic.
- These are not modelled because they depend on the browser locale:
  - locale date and time strings (the chart's axis labels and tooltip time);
  - `toLowerCase` (a parameter);
  - `localeCompare` (a fixed code-unit order).
- These are not modelled because they need a real canvas:
  - canvas text measurement (`textW` is a parameter);
  - the device pixel ratio;
  - colours.
- `Sorting.SortBy` is an insertion sort proved sorted and a permutation. It does not model which stable order the engine picks for ties; the source's comparators tie only on equal names.
- Chart.LabelIndices, Chart.XOf, Chart.DrawXLabels, Chart.BuildPath, Chart.FillIsClosedUnderLine, Chart.HoverPoint: require at least two samples. With one sample the source's `i / (n - 1)` is 0 / 0, so the x label index and every x coordinate are NaN. That one-sample chart is left out.
- The `Infinity` start of `min` and the `0` start of `max` in the range loops are replaced by the first measured value. The `hasData` flag becomes "some duration was measured".
- `getBrandName` (config.ts:47-54) is not modelled, because it depends on the URL parser.
- The OIDC screen's `error` query parameter and its `oidcLoading` spinner are not modelled.
- Settings.SettingsPanel.SelectInterval: requires a listed value. Its only caller passes entries of the menu.
- Dashboard.DashboardView.LoadPreferences: `saved` is the already parsed list. `JSON.parse` itself, and parses that yield something other than a list of strings, are not modelled.
- The search bar's three callbacks are plain field writes, whose effect the filtering functions read. They have no methods of their own.
- HealthBar.Strip.Rerender: keeps the selected index across new results, as React does. It does not state which result that index then shows.
- Server-side rendering (no `window`) is the `None` case of `Config.GetConfig`.

Two remarks on what the code does:
- The endpoint page's 'Endpoint became unhealthy' text (endpoint-detail.tsx:78) is unreachable, because the next event always exists for an older entry.
- The suite page shows 'Failures Detected' when a suite has no results (`SuiteDetail.NoResultsReadAsFailures`).

Highlighted segments are kept per strip. A click broadcasts an event that no strip listens for (health-bar.tsx:58-65), so two strips can hold a selection at once (`HealthBar.ClickOneOfTwo`). The model follows the code here, not a one-selection-per-page reading.

## Findings

| source | as written | input that shows it | evidently intended | confidence | as-written member | corrected member |
|---|---|---|---|---|---|---|
| web/next/components/health-bar.tsx:24-26 | the oldest label reads `results[Math.max(0, len - maxResults)]` | `maxResults = 0` with one result: index 1, `undefined.timestamp` throws | the age of the oldest result the strip shows | possible, not executed (every caller passes 50) | HealthBar.OldestLabelThrowsWithoutPositiveWindow | HealthBar.OldestLabelAgrees |
| web/next/components/dashboard.tsx:158-167 | groups live in a plain object literal, so `groups[g]` finds inherited members | an endpoint in group "constructor": `groups[g]` is `Object`, no group is made, `.endpoints.push` throws | a map with no inherited keys, one group per key | likely, not executed | Dashboard.PrototypeGroupNameThrows | Dashboard.CombineGroups |
| web/next/components/dashboard.tsx:58-74 | `fetchData` is memoised with an empty dependency list, so its `isInitial` test keeps reading the empty lists of the first render | the settings timer (dashboard.tsx:382) firing on a dashboard that lists endpoints: `isInitial` is true, `loading` is set and the list gives way to the spinner until the fetch settles | the spinner only for the first load, when nothing is listed yet | likely, not executed | Dashboard.TimerRefreshAsWritten | Dashboard.DashboardView.BeginFetch |

