/** What a handler asks the browser to do, returned as values instead of performed. */
module Effects {
  import opened QueryParams

  datatype Effect =
    | Navigate(query: ParamList)                // router.push(`?${query}`)
    | NavigateTo(path: string, query: ParamList) // router.push(`${path}?${query}`)
    | Refresh                                    // router.refresh()
    | Alert(message: string)                     // alert(message)
    | CloseForm                                  // the form's onCancel()

  /** The effect list navigates somewhere. */
  predicate Navigates(effects: seq<Effect>) {
    exists i :: 0 <= i < |effects| && (effects[i].Navigate? || effects[i].NavigateTo?)
  }
}
