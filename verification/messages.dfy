/** The messages a rewritten page posts to the window hosting it. */
module Messages {
  import opened Wrappers

  /** A JavaScript value as it lands in the `isRestricted` field. */
  datatype JsValue = JsBool(b: bool) | JsNull | JsUndefined

  /** `null`, `undefined` and `false` are falsy; only `true` is truthy. */
  predicate IsTruthy(v: JsValue) {
    v == JsBool(true)
  }

  datatype Message =
    /** `{action: 'search', query, type}`; `type` is None when it reads as `undefined`. */
    | Search(query: string, searchType: Option<string>)
    /** `{action: 'navigate_to', url}` */
    | NavigateTo(url: string)
    /** `{action: 'rebornxp_navigation_request', url, isRestricted}` */
    | NavigationRequest(url: string, isRestricted: JsValue)
    /** `{action: 'rebornxp_address_update', url}` */
    | AddressUpdate(url: string)

  function Action(m: Message): string {
    match m
    case Search(_, _) => "search"
    case NavigateTo(_) => "navigate_to"
    case NavigationRequest(_, _) => "rebornxp_navigation_request"
    case AddressUpdate(_) => "rebornxp_address_update"
  }
}
