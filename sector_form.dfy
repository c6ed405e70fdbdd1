/** The sector form's submit rule and how it handles the server's answer. */
module SectorForm {
  import opened Common
  import opened Text
  import opened Records
  import opened Effects

  datatype SectorCall = CreateSector(name: string, townId: string) | UpdateSector(id: string, name: string, townId: string)

  /** Either the alert shown, with no server call, or the call made. */
  datatype SectorDecision = Reject(message: string) | Submit(call: SectorCall)

  /** `handleSubmit`: both fields required (the name not blank), the trimmed name
      sent with the town unchanged, an update exactly when the form was opened on a sector. */
  function SubmitSector(name: Option<string>, townId: Option<string>, initial: Option<SectorChoice>): (d: SectorDecision)
    ensures d.Reject? <==> name.None? || AllSpace(name.value) || townId.None? || townId.value == ""
    ensures d.Reject? ==> d.message == "Please fill in all fields"
    ensures d.Submit? ==> d.call.name == Trim(name.value) && d.call.townId == townId.value
    ensures d.Submit? ==> d.call.name != "" && !IsSpace(d.call.name[0]) && !IsSpace(d.call.name[|d.call.name| - 1])
    ensures d.Submit? ==> (d.call.UpdateSector? <==> initial.Some?)
    ensures d.Submit? && initial.Some? ==> d.call.id == initial.value.id
  {
    if name.None? || Trim(name.value) == "" || townId.None? || townId.value == "" then
      Reject("Please fill in all fields")
    else if initial.Some? then
      Submit(UpdateSector(initial.value.id, Trim(name.value), townId.value))
    else
      Submit(CreateSector(Trim(name.value), townId.value))
  }

  /** After the call: a success refreshes and closes the form; a failure alerts
      the server's error, or a fixed message when it gave none, and keeps the form open. */
  function AfterSave(result: SaveResult): (es: seq<Effect>)
    ensures result.success ==> es == [Refresh, CloseForm]
    ensures !result.success ==> |es| == 1 && es[0].Alert? && CloseForm !in es
    ensures !result.success && result.error.Some? && result.error.value != "" ==> es == [Alert(result.error.value)]
    ensures !result.success && (result.error.None? || result.error.value == "") ==> es == [Alert("Failed to save sector")]
  {
    if result.success then [Refresh, CloseForm]
    else if result.error.Some? && result.error.value != "" then [Alert(result.error.value)]
    else [Alert("Failed to save sector")]
  }
}
