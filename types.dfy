/**
 * The records the status page receives from the backend and passes between components.
 * Timestamps are milliseconds since the epoch (the parsed form of the ISO strings the
 * backend sends); durations are nanoseconds, with 0 meaning "not measured".
 * An absent `results` array is the empty sequence: every use in the components reads it
 * through `?.length` or `?? []`, which treat the two alike.
 */
module Types {
  import opened Wrappers

  datatype ConditionResult = ConditionResult(condition: string, success: bool)

  datatype EndpointResult = EndpointResult(
    status: int,
    hostname: string,
    duration: nat,
    success: bool,
    timestamp: int,
    conditionResults: Option<seq<ConditionResult>>,
    errors: Option<seq<string>>)

  datatype EventType = Healthy | Unhealthy | Start

  datatype EndpointEvent = EndpointEvent(eventType: EventType, timestamp: int)

  datatype EndpointStatus = EndpointStatus(
    name: string,
    group: string,
    key: string,
    results: seq<EndpointResult>,
    events: Option<seq<EndpointEvent>>)

  datatype ResponseTimeHistory = ResponseTimeHistory(timestamps: seq<int>, values: seq<real>)

  datatype SuiteEndpointResult = SuiteEndpointResult(name: string, success: bool, duration: nat)

  datatype SuiteResult = SuiteResult(
    success: bool,
    duration: nat,
    timestamp: int,
    endpointResults: Option<seq<SuiteEndpointResult>>)

  datatype SuiteStatus = SuiteStatus(name: string, group: string, key: string, results: seq<SuiteResult>)

  datatype Announcement = Announcement(
    title: string, description: string, severity: string,
    startTime: string, endTime: string, archived: Option<bool>)

  datatype AppConfig = AppConfig(oidc: bool, authenticated: bool, announcements: seq<Announcement>)

  datatype UIButton = UIButton(name: string, link: string)

  /** `window.config`; `title` is optional because the built-in defaults leave it out. */
  datatype WindowConfig = WindowConfig(
    title: Option<string>,
    logo: string,
    header: string,
    dashboardHeading: string,
    dashboardSubheading: string,
    link: string,
    buttons: seq<UIButton>,
    maximumNumberOfResults: string,
    defaultSortBy: string,
    defaultFilterBy: string)

  /** The DOM element a tooltip is anchored to: segment `segment` of health strip `strip`. */
  datatype Anchor = Segment(strip: nat, segment: nat)

  /** What started a tooltip request: the mouse entering or leaving, or a click. */
  datatype Action = Hover | Click

  /** One call of the `onTooltip(result, anchor, action)` callback. */
  datatype TooltipRequest = TooltipRequest(result: Option<EndpointResult>, anchor: Option<Anchor>, action: Action)

  /** What a handler does besides changing state: call `onTooltip`, or broadcast the
      window event 'clear-data-point-selection'. */
  datatype Effect = Notify(request: TooltipRequest) | BroadcastClearSelection
}
