/** What the pages share: a page's state and the errors that reach it. */
module Pages {

  datatype PageState = Loading | Ready | Unavailable | Error

  /** What provider calls and submitted coroutines can raise; `Unexpected` is not a LapcareError. */
  datatype Exc =
    | ProviderUnavailable
    | ProviderTimeout
    | ProviderParseError
    | PrivilegedActionDenied
    | FirmwareInstallFailed(detail: string)
    | Unexpected

  /** handle_error(): an unavailable source is not a failure. */
  function ErrorState(e: Exc): PageState {
    if e.ProviderUnavailable? then Unavailable else Error
  }
}
